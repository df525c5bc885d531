/** Snapshot sections made from the data the crash dumper has captured. */
module CrashReadback {
  import opened Wrappers
  import opened Pm4
  import opened CrashScript
  import opened CrashDump

  const HEADER_BYTES := 4

  /** Consecutive register numbers. */
  function RunFrom(first: u32, n: nat): (ns: seq<u32>)
    ensures |ns| == n
  {
    if n == 0 then [] else RunFrom(first, n - 1) + [(first + n - 1) % 0x1_0000_0000]
  }

  /** The register numbers of a list of ranges, in order. */
  function Numbers(rs: seq<Range>): (ns: seq<u32>)
    ensures |ns| == Total(RangeItems(rs))
  {
    if rs == [] then []
    else
      TotalSnoc(RangeItems(rs[..|rs| - 1]), RangeItem(rs[|rs| - 1]));
      Numbers(rs[..|rs| - 1]) + RunFrom(rs[|rs| - 1].first, SizeOf(rs[|rs| - 1]))
  }

  /** Numbers and words, taking turns. */
  function Paired(ns: seq<u32>, ws: seq<u32>): (r: seq<u32>)
    requires |ns| == |ws|
    ensures |r| == 2 * |ns|
  {
    if ns == [] then []
    else Paired(ns[..|ns| - 1], ws[..|ns| - 1]) + [ns[|ns| - 1], ws[|ns| - 1]]
  }

  lemma {:induction false} PairedAt(ns: seq<u32>, ws: seq<u32>, i: nat)
    requires |ns| == |ws| && i < |ns|
    ensures Paired(ns, ws)[2 * i] == ns[i] && Paired(ns, ws)[2 * i + 1] == ws[i]
  {
    if i < |ns| - 1 { PairedAt(ns[..|ns| - 1], ws[..|ns| - 1], i); }
  }

  lemma PairedSnoc(ns: seq<u32>, ws: seq<u32>, n: u32, w: u32)
    requires |ns| == |ws|
    ensures Paired(ns + [n], ws + [w]) == Paired(ns, ws) + [n, w]
  {
    assert (ns + [n])[..|ns|] == ns && (ws + [w])[..|ws|] == ws;
  }

  /** How many ranges from the start have room for eight bytes a register. */
  function Fitting(rs: seq<Range>, room: nat): nat {
    if rs == [] || room < SizeOf(rs[0]) * 8 then 0 else 1 + Fitting(rs[1..], room - SizeOf(rs[0]) * 8)
  }

  function Bytes(rs: seq<Range>): nat {
    if rs == [] then 0 else SizeOf(rs[0]) * 8 + Bytes(rs[1..])
  }

  /** Fitting is the longest prefix with room. */
  lemma {:induction false} FittingIsLongest(rs: seq<Range>, room: nat)
    ensures var k := Fitting(rs, room);
            k <= |rs| && Bytes(rs[..k]) <= room && (k < |rs| ==> room < Bytes(rs[..k + 1]))
    decreases rs
  {
    if rs == [] {
    } else if room < SizeOf(rs[0]) * 8 {
      assert rs[..1] == [rs[0]] && rs[..1][1..] == [];
    } else {
      FittingIsLongest(rs[1..], room - SizeOf(rs[0]) * 8);
      var k := Fitting(rs, room);
      assert rs[..k][1..] == rs[1..][..k - 1];
      if k < |rs| { assert rs[..k + 1][1..] == rs[1..][..k]; }
    }
  }

  /** The section of the main register list. A short buffer gets the longest prefix of the ranges that
      fits; each register number comes with the next captured word. */
  method SnapshotRegisters(buf: array<u32>, remain: nat, rs: seq<Range>, captured: seq<u32>) returns (size: nat)
    requires remain <= 4 * buf.Length && RangesFit(rs) && |Numbers(rs)| <= |captured|
    modifies buf
    ensures remain < HEADER_BYTES ==> size == 0 && buf[..] == old(buf[..])
    ensures remain >= HEADER_BYTES ==>
      var k := Fitting(rs, remain - HEADER_BYTES);
      && k <= |rs| && |Numbers(rs[..k])| <= |captured|
      && var n := |Numbers(rs[..k])|;
         && size == HEADER_BYTES + 8 * n <= remain && buf[0] == n % 0x1_0000_0000
         && buf[1..1 + 2 * n] == Paired(Numbers(rs[..k]), captured[..n])
  {
    hide Numbers, Paired, RunFrom, Total, RangeItems, Fitting;
    if remain < HEADER_BYTES { return 0; }
    var room: nat := remain - HEADER_BYTES;
    var count := 0;
    NoNumbers();
    assert rs[..0] == [] && rs[0..] == rs;
    var j := 0;
    while j < |rs|
      invariant j <= |rs| && count == |Numbers(rs[..j])| <= |captured| && 8 * count + room == remain - HEADER_BYTES
      invariant Fitting(rs, remain - HEADER_BYTES) == j + Fitting(rs[j..], room)
      invariant buf[1..1 + 2 * count] == Paired(Numbers(rs[..j]), captured[..count])
    {
      var first, last := rs[j].first, rs[j].last;
      assert rs[j] in rs;
      NumbersMore(rs, j);
      FittingStep(rs, j, room);
      if room < (last - first + 1) * 8 { break; }
      room := room - (last - first + 1) * 8;
      count := SnapshotRange(buf, count, first, last, captured, Numbers(rs[..j]));
      j := j + 1;
    }
    FittingEnd(rs, j, room);
    buf[0] := count % 0x1_0000_0000;
    size := count * 8 + HEADER_BYTES;
  }

  /** Writes a number and its word behind what is there from `from` on. */
  method PutPair(buf: array<u32>, ghost from: nat, at: nat, n: u32, w: u32)
    requires from <= at && at + 2 <= buf.Length
    modifies buf
    ensures buf[from..at + 2] == old(buf[from..at]) + [n, w]
  {
    buf[at], buf[at + 1] := n, w;
  }

  /** One range: every register number with the next captured word. */
  method SnapshotRange(buf: array<u32>, from: nat, first: u32, last: u32, captured: seq<u32>, ghost before: seq<u32>)
    returns (count: nat)
    requires first <= last && from == |before| && from + (last - first + 1) <= |captured|
    requires 1 + 2 * (from + (last - first + 1)) <= buf.Length
    requires buf[1..1 + 2 * from] == Paired(before, captured[..from])
    modifies buf
    ensures count == from + (last - first + 1)
    ensures buf[1..1 + 2 * count] == Paired(before + RunFrom(first, last - first + 1), captured[..count])
  {
    hide Paired, RunFrom;
    NoRun(before, first);
    count := from;
    var k := first;
    while k <= last
      invariant first <= k <= last + 1 && count == from + (k - first)
      invariant buf[1..1 + 2 * count] == Paired(before + RunFrom(first, k - first), captured[..count])
    {
      RunMore(before, first, k - first, captured, count);
      PutPair(buf, 1, 1 + 2 * count, k, captured[count]);
      k := k + 1;
      count := count + 1;
    }
  }

  lemma FittingStep(rs: seq<Range>, j: nat, room: nat)
    requires j < |rs|
    ensures Fitting(rs[j..], room) ==
            if room < SizeOf(rs[j]) * 8 then 0 else 1 + Fitting(rs[j + 1..], room - SizeOf(rs[j]) * 8)
  {
    assert rs[j..][1..] == rs[j + 1..];
  }

  lemma FittingEnd(rs: seq<Range>, j: nat, room: nat)
    requires j <= |rs|
    ensures j == |rs| ==> Fitting(rs[j..], room) == 0
  {
  }

  lemma NoNumbers()
    ensures Numbers([]) == [] && Paired([], []) == []
  {
  }

  lemma NoRun(before: seq<u32>, first: u32)
    ensures before + RunFrom(first, 0) == before && RunFrom(first, 0) == []
  {
  }

  lemma RunMore(before: seq<u32>, first: u32, n: nat, captured: seq<u32>, count: nat)
    requires count == |before| + n < |captured| && first + n < 0x1_0000_0000
    ensures Paired(before + RunFrom(first, n + 1), captured[..count + 1]) ==
            Paired(before + RunFrom(first, n), captured[..count]) + [first + n, captured[count]]
  {
    PairedSnoc(before + RunFrom(first, n), captured[..count], first + n, captured[count]);
    assert captured[..count] + [captured[count]] == captured[..count + 1];
    assert before + RunFrom(first, n) + [first + n] == before + RunFrom(first, n + 1);
  }

  /** One more range: its numbers come last, and together they are no more than all. */
  lemma {:induction false} NumbersMore(rs: seq<Range>, j: nat)
    requires j < |rs|
    ensures Numbers(rs[..j + 1]) == Numbers(rs[..j]) + RunFrom(rs[j].first, SizeOf(rs[j]))
    ensures |Numbers(rs[..j + 1])| <= |Numbers(rs)|
    decreases |rs| - j
  {
    assert rs[..j + 1][..j] == rs[..j];
    if j + 1 < |rs| {
      NumbersMore(rs, j + 1);
    } else {
      assert rs[..j + 1] == rs;
    }
  }

  /** A set's registers, each with its word in the data; the set remembers where that is, in bytes. */
  function SetPairs(h: RegSet, data: seq<u32>): seq<u32>
    requires h.offset / 4 + h.size <= |data|
  {
    Paired(RunFrom(h.ahbaddr, h.size), data[h.offset / 4..h.offset / 4 + h.size])
  }

  predicate SetsInside(hs: seq<RegSet>, data: seq<u32>) {
    forall h :: h in hs ==> h.offset % 4 == 0 && h.offset / 4 + h.size <= |data|
  }

  function AllPairs(hs: seq<RegSet>, data: seq<u32>): (r: seq<u32>)
    requires SetsInside(hs, data)
    ensures |r| == 2 * Total(SetItems(hs))
  {
    if hs == [] then []
    else
      assert hs[|hs| - 1] in hs;
      TotalSnoc(SetItems(hs[..|hs| - 1]), SetItem(hs[|hs| - 1]));
      AllPairs(hs[..|hs| - 1], data) + SetPairs(hs[|hs| - 1], data)
  }

  method GetHlsqRegisters(buf: array<u32>, ghost from: nat, at: nat, h: RegSet, data: seq<u32>) returns (words: nat)
    requires h.offset / 4 + h.size <= |data| && from <= at && at + 2 * h.size <= buf.Length
    modifies buf
    ensures words == 2 * h.size && buf[from..at + words] == old(buf[from..at]) + SetPairs(h, data)
  {
    hide Paired, RunFrom;
    ghost var captured, was := data[h.offset / 4..h.offset / 4 + h.size], buf[from..at];
    NoRun(was, h.ahbaddr);
    NoNumbers();
    assert was + [] == was;
    var src := h.offset / 4;
    for i := 0 to h.size
      invariant buf[from..at + 2 * i] == was + Paired(RunFrom(h.ahbaddr, i), captured[..i])
    {
      RunNext(h.ahbaddr, i, captured);
      PutPair(buf, from, at + 2 * i, (h.ahbaddr + i) % 0x1_0000_0000, data[src + i]);
      RegroupAll(was, Paired(RunFrom(h.ahbaddr, i), captured[..i]), [(h.ahbaddr + i) % 0x1_0000_0000, captured[i]]);
    }
    assert captured[..h.size] == captured;
    words := 2 * h.size;
  }

  lemma RunNext(first: u32, n: nat, captured: seq<u32>)
    requires n < |captured|
    ensures Paired(RunFrom(first, n + 1), captured[..n + 1]) ==
            Paired(RunFrom(first, n), captured[..n]) + [(first + n) % 0x1_0000_0000, captured[n]]
  {
    PairedSnoc(RunFrom(first, n), captured[..n], (first + n) % 0x1_0000_0000, captured[n]);
    assert captured[..n] + [captured[n]] == captured[..n + 1];
  }

  /** The section of the sets: all of them, or nothing if there is no room for all. */
  method SnapshotHlsq(buf: array<u32>, remain: nat, sets: seq<RegSet>, data: seq<u32>) returns (size: nat)
    requires remain <= 4 * buf.Length && SetsInside(sets, data)
    modifies buf
    ensures var n := Total(SetItems(sets));
            if remain < 8 * n + HEADER_BYTES then size == 0 && buf[..] == old(buf[..])
            else && size == 8 * n + HEADER_BYTES && buf[0] == n % 0x1_0000_0000
                 && buf[1..1 + 2 * n] == AllPairs(sets, data)
  {
    hide AllPairs, SetPairs, Total, SetItems;
    NothingTotal();
    NoSets(data);
    var count := 0;
    assert sets[..0] == [];
    for i := 0 to |sets|
      invariant count == Total(SetItems(sets[..i])) && buf[..] == old(buf[..])
    {
      SetsMore(sets, i, data);
      count := count + sets[i].size;
    }
    assert sets[..|sets|] == sets;
    if remain < count * 8 + HEADER_BYTES { return 0; }
    var at := 1;
    for i := 0 to |sets|
      invariant at == 1 + 2 * Total(SetItems(sets[..i])) <= 1 + 2 * count && SetsInside(sets[..i], data)
      invariant buf[1..at] == AllPairs(sets[..i], data)
    {
      SetsMore(sets, i, data);
      assert sets[i] in sets;
      var words := GetHlsqRegisters(buf, 1, at, sets[i], data);
      at := at + words;
    }
    buf[0] := count % 0x1_0000_0000;
    size := count * 8 + HEADER_BYTES;
  }

  lemma NoSets(data: seq<u32>)
    ensures Total(SetItems([])) == 0 && SetsInside([], data) && AllPairs([], data) == []
  {
  }

  lemma {:induction false} SetsMore(hs: seq<RegSet>, i: nat, data: seq<u32>)
    requires i < |hs| && SetsInside(hs, data)
    ensures hs[i] in hs && SetsInside(hs[..i], data) && SetsInside(hs[..i + 1], data)
    ensures AllPairs(hs[..i + 1], data) == AllPairs(hs[..i], data) + SetPairs(hs[i], data)
    ensures Total(SetItems(hs[..i + 1])) == Total(SetItems(hs[..i])) + hs[i].size <= Total(SetItems(hs))
    decreases |hs| - i
  {
    assert hs[i] in hs;
    assert hs[..i + 1][..i] == hs[..i];
    TotalSnoc(SetItems(hs[..i]), SetItem(hs[i]));
    if i + 1 < |hs| {
      SetsMore(hs, i + 1, data);
    } else {
      assert hs[..i + 1] == hs;
    }
  }

  lemma CapturedOne(it: Item, hw: Hardware, sel: u64)
    ensures Captured([it], hw, sel) == Captured1(hw, SelOf(it, sel), it.reg, it.count)
    ensures SelAfter([it], sel) == SelOf(it, sel)
  {
    assert [it][1..] == [];
    var ws := Captured1(hw, SelOf(it, sel), it.reg, it.count);
    assert ws + [] == ws;
    CapturedNothing(hw, SelOf(it, sel));
    CapturedHead([it], hw, sel);
  }

  lemma {:induction false} SelAfterAppend(a: seq<Item>, b: seq<Item>, sel: u64)
    ensures SelAfter(a + b, sel) == SelAfter(b, SelAfter(a, sel))
  {
    if a == [] {
      assert a + b == b;
    } else {
      AppendSlices(a, b, 1);
      SelAfterAppend(a[1..], b, SelOf(a[0], sel));
    }
  }

  lemma {:induction false} RunFromAt(first: u32, n: nat, i: nat)
    requires i < n
    ensures RunFrom(first, n)[i] == (first + i) % 0x1_0000_0000
  {
    if i < n - 1 { RunFromAt(first, n - 1, i); }
  }

  lemma RangeNumberAt(r: Range, i: nat)
    requires r.first <= r.last < REGS && i <= r.last - r.first
    ensures RunFrom(r.first, SizeOf(r))[i] == r.first + i
  {
    RunFromAt(r.first, SizeOf(r), i);
  }

  lemma {:induction false} NumbersPrefix(rs: seq<Range>, j: nat)
    requires j <= |rs|
    ensures Numbers(rs[..j]) <= Numbers(rs)
    decreases |rs| - j
  {
    hide Numbers, RunFrom;
    if j == |rs| {
      assert rs[..j] == rs;
    } else {
      NumbersMore(rs, j);
      NumbersPrefix(rs, j + 1);
    }
  }

  /** The numbers are those from the first to the last of every range, in order and without gaps. */
  lemma NumbersAt(rs: seq<Range>, j: nat, i: nat)
    requires RangesFit(rs) && j < |rs| && i <= rs[j].last - rs[j].first
    ensures Numbers(rs[..0]) == []
    ensures |Numbers(rs[..j + 1])| == |Numbers(rs[..j])| + (rs[j].last - rs[j].first + 1) <= |Numbers(rs)|
    ensures Numbers(rs)[|Numbers(rs[..j])| + i] == rs[j].first + i
  {
    hide Numbers, RunFrom;
    NoNumbers();
    assert rs[j] in rs && rs[..0] == [];
    NumbersMore(rs, j);
    NumbersPrefix(rs, j + 1);
    RangeNumberAt(rs[j], i);
  }

  /** The words of the register ranges are those of their numbers. */
  lemma {:induction false} CapturedRanges(rs: seq<Range>, hw: Hardware, sel: u64, i: nat)
    requires RangesFit(rs) && (|rs| > 0 ==> i < |Numbers(rs)|)
    ensures SelAfter(RangeItems(rs), sel) == sel
    ensures |rs| > 0 ==> Captured(RangeItems(rs), hw, sel)[i] == hw(sel, Numbers(rs)[i])
    decreases |rs|
  {
    hide Captured, Captured1, Total, RunFrom, SelAfter;
    if rs == [] {
      CapturedNothing(hw, sel);
    } else {
      var init, r := rs[..|rs| - 1], rs[|rs| - 1];
      assert r in rs;
      var it := RangeItem(r);
      if init != [] { FirstNumber(init); }
      CapturedRanges(init, hw, sel, if i < |Numbers(init)| then i else 0);
      SelAfterAppend(RangeItems(init), [it], sel);
      CapturedAppend(RangeItems(init), [it], hw, sel);
      CapturedOne(it, hw, sel);
      if |Numbers(init)| <= i {
        RangeNumberAt(r, i - |Numbers(init)|);
        Captured1At(hw, sel, r.first, SizeOf(r), i - |Numbers(init)|);
      } else if init == [] {
        NoNumbers();
      }
    }
  }

  /** No list of ranges is without registers but the empty one. */
  lemma FirstNumber(rs: seq<Range>)
    requires RangesFit(rs) && rs != []
    ensures |Numbers(rs)| > 0
  {
    assert rs[|rs| - 1] in rs;
  }

  lemma {:induction false} RangeItemsAppend(a: seq<Range>, b: seq<Range>)
    ensures RangeItems(a + b) == RangeItems(a) + RangeItems(b)
  {
    if b == [] {
      assert a + b == a;
    } else {
      RangeItemsAppend(a, b[..|b| - 1]);
      assert (a + b)[..|a + b| - 1] == a + b[..|b| - 1];
    }
  }

  /** Round trip of the main list: after the script has been carried out, whatever the buffer held, every
      pair the snapshot writes is a register number of the list and that register's word. */
  lemma RegisterPairsAreTrue(regs: seq<Range>, gpmu: Option<seq<Range>>, blocks: seq<ShaderBlock>, sets: seq<RegSet>,
                             base: u64, hw: Hardware, sel: u64, out: seq<u32>, k: nat, i: nat)
    requires TablesFit(regs, gpmu, blocks, sets)
    requires |out| == Total(Items(regs, gpmu, blocks, sets)) && base + 4 * |out| < 0x1_0000_0000_0000_0000
    requires k <= |regs| && i < |Numbers(regs[..k])|
    ensures var data := Dump(Script(Items(regs, gpmu, blocks, sets), base, 0) + [0, 0], base, hw, sel, out);
            var ns := Numbers(regs[..k]);
            && data.Some? && |data.value| == |out| && |ns| <= |out|
            && var pairs := Paired(ns, data.value[..|ns|]);
               pairs[2 * i] == ns[i] && pairs[2 * i + 1] == hw(sel, ns[i])
  {
    hide Dump, Script, Captured, Items, Total, AllOk, Numbers, Paired, RangesFit;
    var items, ns := Items(regs, gpmu, blocks, sets), Numbers(regs[..k]);
    ScriptFillsBuffer(items, base, hw, sel, out);
    var rest := ItemsPrefix(regs, gpmu, blocks, sets, k);
    PrefixWord(regs[..k], rest, hw, sel, i);
    PairedAt(ns, Captured(items, hw, sel)[..|ns|], i);
  }

  lemma ItemsPrefix(regs: seq<Range>, gpmu: Option<seq<Range>>, blocks: seq<ShaderBlock>, sets: seq<RegSet>, k: nat)
    returns (rest: seq<Item>)
    requires k <= |regs| && TablesFit(regs, gpmu, blocks, sets)
    ensures Items(regs, gpmu, blocks, sets) == RangeItems(regs[..k]) + rest && RangesFit(regs[..k])
  {
    hide RangeItems, BlockItems, SetItems;
    var g := if gpmu.Some? then RangeItems(gpmu.value) else [];
    rest := RangeItems(regs[k..]) + g + BlockItems(blocks) + SetItems(sets);
    RangeItemsAppend(regs[..k], regs[k..]);
    assert regs == regs[..k] + regs[k..];
    Shift(RangeItems(regs[..k]), RangeItems(regs[k..]), g, BlockItems(blocks), SetItems(sets));
  }

  lemma Shift<T>(a: seq<T>, b: seq<T>, c: seq<T>, d: seq<T>, e: seq<T>)
    ensures (a + b) + c + d + e == a + (b + c + d + e)
  {
  }

  lemma PrefixWord(rs: seq<Range>, rest: seq<Item>, hw: Hardware, sel: u64, i: nat)
    requires RangesFit(rs) && i < |Numbers(rs)|
    ensures var data := Captured(RangeItems(rs) + rest, hw, sel);
            |Numbers(rs)| <= |data| && data[i] == hw(sel, Numbers(rs)[i])
  {
    hide Captured, Numbers, Total, RangesFit;
    CapturedAppend(RangeItems(rs), rest, hw, sel);
    TotalAppend(RangeItems(rs), rest);
    if rs == [] { NoNumbers(); } else { CapturedRanges(rs, hw, sel, i); }
  }

  /** The same for a set: word j at its remembered place is what the aperture showed at j under the set's selection. */
  lemma SetWordIsSelected(regs: seq<Range>, gpmu: Option<seq<Range>>, blocks: seq<ShaderBlock>, sets: seq<RegSet>,
                        base: u64, hw: Hardware, sel: u64, out: seq<u32>, k: nat, j: nat)
    requires TablesFit(regs, gpmu, blocks, sets)
    requires |out| == Total(Items(regs, gpmu, blocks, sets)) && base + 4 * |out| < 0x1_0000_0000_0000_0000
    requires k < |sets| && j < sets[k].size
    ensures var data := Dump(Script(Items(regs, gpmu, blocks, sets), base, 0) + [0, 0], base, hw, sel, out);
            var head := RangeItems(regs) + (if gpmu.Some? then RangeItems(gpmu.value) else []) + BlockItems(blocks);
            var h := PlacedSets(sets, head)[k];
            && data.Some? && h == sets[k].(offset := h.offset) && h.offset % 4 == 0
            && h.offset / 4 + h.size <= |data.value|
            && data.value[h.offset / 4 + j] == hw(Select(h.statetype, 0), APERTURE + j)
  {
    hide Dump, Script, Captured, Items, RangeItems, BlockItems, Total, AllOk, PlacedSets, SelAfter, Select;
    ScriptFillsBuffer(Items(regs, gpmu, blocks, sets), base, hw, sel, out);
    var before, after := SetPlace(regs, gpmu, blocks, sets, k);
    WordInside(before, SetItem(sets[k]), after, hw, sel, j);
  }

  /** Hardware that takes the select register apart: the state type above bit 8, the bank below it. */
  type Selected = (nat, nat, nat) -> u32

  function BySelection(s: Selected): Hardware { (v: u64, reg: nat) => s(v / 0x100, v % 0x100, reg) }

  lemma SelectionIsRead(s: Selected, statetype: u32, bank: nat, reg: nat)
    requires bank < 0x100
    ensures BySelection(s)(Select(statetype, bank), reg) == s(statetype % 0x100_0000, bank, reg)
  {
    var v := Select(statetype, bank);
    assert statetype == (statetype / 0x100_0000) * 0x100_0000 + statetype % 0x100_0000;
    assert (statetype * 0x100) % 0x1_0000_0000 == (statetype % 0x100_0000) * 0x100;
    assert v / 0x100 == statetype % 0x100_0000 && v % 0x100 == bank;
  }

  /** Round trip of a set: its remembered place holds, word by word, what the aperture showed with the set's state type
      and bank 0 selected. */
  lemma SetWordsAreTrue(regs: seq<Range>, gpmu: Option<seq<Range>>, blocks: seq<ShaderBlock>, sets: seq<RegSet>,
                        base: u64, s: Selected, sel: u64, out: seq<u32>, k: nat, j: nat)
    requires TablesFit(regs, gpmu, blocks, sets)
    requires |out| == Total(Items(regs, gpmu, blocks, sets)) && base + 4 * |out| < 0x1_0000_0000_0000_0000
    requires k < |sets| && j < sets[k].size
    ensures var data := Dump(Script(Items(regs, gpmu, blocks, sets), base, 0) + [0, 0], base, BySelection(s), sel, out);
            var head := RangeItems(regs) + (if gpmu.Some? then RangeItems(gpmu.value) else []) + BlockItems(blocks);
            var h := PlacedSets(sets, head)[k];
            && data.Some? && h == sets[k].(offset := h.offset) && h.offset % 4 == 0
            && h.offset / 4 + h.size <= |data.value|
            && data.value[h.offset / 4 + j] == s(h.statetype % 0x100_0000, 0, APERTURE + j)
  {
    hide Dump, Script, Items, RangeItems, BlockItems, Total, AllOk, PlacedSets, Select, BySelection;
    SetWordIsSelected(regs, gpmu, blocks, sets, base, BySelection(s), sel, out, k, j);
    SelectionIsRead(s, sets[k].statetype, 0, APERTURE + j);
  }

  lemma SetPairsAt(h: RegSet, data: seq<u32>, j: nat)
    requires h.offset / 4 + h.size <= |data| && j < h.size
    ensures |SetPairs(h, data)| == 2 * h.size && SetPairs(h, data)[2 * j] == (h.ahbaddr + j) % 0x1_0000_0000
    ensures SetPairs(h, data)[2 * j + 1] == data[h.offset / 4 + j]
  {
    hide Paired, RunFrom;
    RunFromAt(h.ahbaddr, h.size, j);
    PairedAt(RunFrom(h.ahbaddr, h.size), data[h.offset / 4..h.offset / 4 + h.size], j);
  }

  lemma {:induction false} AllPairsPrefix(hs: seq<RegSet>, data: seq<u32>, k: nat)
    requires SetsInside(hs, data) && k <= |hs|
    ensures SetsInside(hs[..k], data) && AllPairs(hs[..k], data) <= AllPairs(hs, data)
    decreases |hs| - k
  {
    hide AllPairs, SetPairs, SetItems, Total;
    if k == |hs| {
      assert hs[..k] == hs;
    } else {
      SetsMore(hs, k, data);
      AllPairsPrefix(hs, data, k + 1);
    }
  }

  /** The pairs of a set, among those of all sets. */
  lemma AllPairsAt(hs: seq<RegSet>, data: seq<u32>, k: nat, j: nat)
    requires SetsInside(hs, data) && k < |hs| && j < hs[k].size
    ensures var p := 2 * (Total(SetItems(hs[..k])) + j);
            && p + 1 < |AllPairs(hs, data)| && hs[k].offset / 4 + j < |data|
            && AllPairs(hs, data)[p] == (hs[k].ahbaddr + j) % 0x1_0000_0000
            && AllPairs(hs, data)[p + 1] == data[hs[k].offset / 4 + j]
  {
    hide AllPairs, SetPairs, SetItems, Total;
    SetsMore(hs, k, data);
    AllPairsPrefix(hs, data, k + 1);
    SetPairsAt(hs[k], data, j);
    var p, before := 2 * (Total(SetItems(hs[..k])) + j), AllPairs(hs[..k], data);
    assert AllPairs(hs, data)[p] == (before + SetPairs(hs[k], data))[p];
    assert AllPairs(hs, data)[p + 1] == (before + SetPairs(hs[k], data))[p + 1];
  }

  lemma PlacedInside(regs: seq<Range>, gpmu: Option<seq<Range>>, blocks: seq<ShaderBlock>, sets: seq<RegSet>,
                     data: seq<u32>)
    requires TablesFit(regs, gpmu, blocks, sets) && |data| == Total(Items(regs, gpmu, blocks, sets))
    ensures var head := RangeItems(regs) + (if gpmu.Some? then RangeItems(gpmu.value) else []) + BlockItems(blocks);
            SetsInside(PlacedSets(sets, head), data)
  {
    hide Items, RangeItems, BlockItems, Total, AllOk, PlacedSets;
    var head := RangeItems(regs) + (if gpmu.Some? then RangeItems(gpmu.value) else []) + BlockItems(blocks);
    var hs := PlacedSets(sets, head);
    forall k | 0 <= k < |hs| ensures hs[k].offset % 4 == 0 && hs[k].offset / 4 + hs[k].size <= |data| {
      var before, after := SetPlace(regs, gpmu, blocks, sets, k);
      TotalAppend(before + [SetItem(sets[k])], after);
      TotalSnoc(before, SetItem(sets[k]));
    }
  }

  /** What the section of the sets shows: each register's number in the set, and that register. */
  lemma SetPairsAreTrue(regs: seq<Range>, gpmu: Option<seq<Range>>, blocks: seq<ShaderBlock>, sets: seq<RegSet>,
                        base: u64, s: Selected, sel: u64, out: seq<u32>, k: nat, j: nat)
    requires TablesFit(regs, gpmu, blocks, sets)
    requires |out| == Total(Items(regs, gpmu, blocks, sets)) && base + 4 * |out| < 0x1_0000_0000_0000_0000
    requires k < |sets| && j < sets[k].size
    ensures var data := Dump(Script(Items(regs, gpmu, blocks, sets), base, 0) + [0, 0], base, BySelection(s), sel, out);
            var head := RangeItems(regs) + (if gpmu.Some? then RangeItems(gpmu.value) else []) + BlockItems(blocks);
            var hs := PlacedSets(sets, head);
            && data.Some? && SetsInside(hs, data.value)
            && var p := 2 * (Total(SetItems(hs[..k])) + j);
               && p + 1 < |AllPairs(hs, data.value)|
               && AllPairs(hs, data.value)[p] == (sets[k].ahbaddr + j) % 0x1_0000_0000
               && AllPairs(hs, data.value)[p + 1] == s(sets[k].statetype % 0x100_0000, 0, APERTURE + j)
  {
    hide Dump, Script, Captured, Items, RangeItems, BlockItems, SetItems, Total, AllOk, PlacedSets, Select, BySelection,
         AllPairs, SetsInside;
    var head := RangeItems(regs) + (if gpmu.Some? then RangeItems(gpmu.value) else []) + BlockItems(blocks);
    SetWordsAreTrue(regs, gpmu, blocks, sets, base, s, sel, out, k, j);
    ScriptFillsBuffer(Items(regs, gpmu, blocks, sets), base, BySelection(s), sel, out);
    var data := Captured(Items(regs, gpmu, blocks, sets), BySelection(s), sel);
    PlacedInside(regs, gpmu, blocks, sets, data);
    AllPairsAt(PlacedSets(sets, head), data, k, j);
  }

  /** Round trip of a shader block: bank j, word i of it is at its remembered place, j banks and i words on, and is what
      the aperture showed at i with the block's state type and that bank selected. */
  lemma BlockWordsAreTrue(regs: seq<Range>, gpmu: Option<seq<Range>>, blocks: seq<ShaderBlock>, sets: seq<RegSet>,
                          base: u64, s: Selected, sel: u64, out: seq<u32>, k: nat, j: nat, i: nat)
    requires TablesFit(regs, gpmu, blocks, sets)
    requires |out| == Total(Items(regs, gpmu, blocks, sets)) && base + 4 * |out| < 0x1_0000_0000_0000_0000
    requires k < |blocks| && j < BANKS && i < blocks[k].sz
    ensures var data := Dump(Script(Items(regs, gpmu, blocks, sets), base, 0) + [0, 0], base, BySelection(s), sel, out);
            var head := RangeItems(regs) + if gpmu.Some? then RangeItems(gpmu.value) else [];
            var b := PlacedBlocks(blocks, head)[k];
            && data.Some? && b == blocks[k].(offset := b.offset) && b.offset % 4 == 0
            && b.offset / 4 + j * b.sz + i < |data.value|
            && data.value[b.offset / 4 + j * b.sz + i] == s(b.statetype % 0x100_0000, j, APERTURE + i)
  {
    hide Dump, Script, Captured, Items, RangeItems, BlockItems, BankItems, Total, AllOk, PlacedBlocks, SelAfter,
         Select, BySelection;
    var b := blocks[k];
    var it := BankItem(b, j);
    ScriptFillsBuffer(Items(regs, gpmu, blocks, sets), base, BySelection(s), sel, out);
    var before, after := BlockPlace(regs, gpmu, blocks, sets, k);
    var later := BankSplit(b, j, BANKS);
    assert b in blocks;
    BanksOk(b, j);
    TotalAppend(before, BankItems(b, j));
    BankPlace(before, BankItems(b, j), [it], later, after);
    WordInside(before + BankItems(b, j), it, later + after, BySelection(s), sel, i);
    SelectionIsRead(s, b.statetype, j, APERTURE + i);
  }

  function BankItem(b: ShaderBlock, j: nat): Item
    requires j < BANKS
  {
    Item(Some(Select(b.statetype, j)), APERTURE, b.sz)
  }

  lemma BankPlace<T>(a: seq<T>, b: seq<T>, c: seq<T>, d: seq<T>, e: seq<T>)
    ensures a + (b + c + d) + e == (a + b) + c + (d + e)
  {
  }

  lemma {:induction false} BankSplit(b: ShaderBlock, j: nat, n: nat) returns (later: seq<Item>)
    requires j < n <= BANKS
    ensures BankItems(b, n) == BankItems(b, j) + [BankItem(b, j)] + later
  {
    if j == n - 1 {
      later := [];
    } else {
      var rest := BankSplit(b, j, n - 1);
      later := rest + [BankItem(b, n - 1)];
    }
  }

  /** The reads before a shader block and after it, and so its place. */
  lemma BlockPlace(regs: seq<Range>, gpmu: Option<seq<Range>>, blocks: seq<ShaderBlock>, sets: seq<RegSet>, k: nat)
    returns (before: seq<Item>, after: seq<Item>)
    requires k < |blocks| && TablesFit(regs, gpmu, blocks, sets)
    ensures Items(regs, gpmu, blocks, sets) == before + BankItems(blocks[k], BANKS) + after
    ensures var head := RangeItems(regs) + if gpmu.Some? then RangeItems(gpmu.value) else [];
            PlacedBlocks(blocks, head)[k] == blocks[k].(offset := 4 * Total(before))
  {
    hide RangeItems, BlockItems, SetItems, BankItems, Total, AllOk, PlacedBlocks;
    var head := RangeItems(regs) + if gpmu.Some? then RangeItems(gpmu.value) else [];
    BlockPlacedAt(blocks, head, k);
    BlockItemsSplit(blocks, k);
    var behind := BlockItems(blocks[k + 1..]);
    before, after := head + BlockItems(blocks[..k]), behind + SetItems(sets);
    Spread(head, BlockItems(blocks[..k]), BankItems(blocks[k], BANKS), behind);
    RegroupAll(before + BankItems(blocks[k], BANKS), behind, SetItems(sets));
  }

  lemma {:induction false} BlockPlacedAt(bs: seq<ShaderBlock>, done: seq<Item>, k: nat)
    requires k < |bs|
    ensures PlacedBlocks(bs, done)[k] == bs[k].(offset := 4 * Total(done + BlockItems(bs[..k])))
    decreases |bs|
  {
    if k < |bs| - 1 {
      BlockPlacedAt(bs[..|bs| - 1], done, k);
      assert bs[..|bs| - 1][..k] == bs[..k];
    }
  }

  lemma {:induction false} BlockItemsSplit(bs: seq<ShaderBlock>, k: nat)
    requires k < |bs|
    ensures BlockItems(bs) == BlockItems(bs[..k]) + BankItems(bs[k], BANKS) + BlockItems(bs[k + 1..])
    decreases |bs|
  {
    hide BankItems;
    if k == |bs| - 1 {
      assert bs[k + 1..] == [];
    } else {
      var init, behind := bs[..|bs| - 1], bs[k + 1..];
      BlockItemsSplit(init, k);
      assert init[..k] == bs[..k] && init[k] == bs[k];
      assert behind[..|behind| - 1] == init[k + 1..];
      RegroupAll(BlockItems(bs[..k]) + BankItems(bs[k], BANKS), BlockItems(init[k + 1..]),
                 BankItems(bs[|bs| - 1], BANKS));
    }
  }

  /** The reads before a set and after it, and so its place. */
  lemma SetPlace(regs: seq<Range>, gpmu: Option<seq<Range>>, blocks: seq<ShaderBlock>, sets: seq<RegSet>, k: nat)
    returns (before: seq<Item>, after: seq<Item>)
    requires k < |sets| && TablesFit(regs, gpmu, blocks, sets)
    ensures Items(regs, gpmu, blocks, sets) == before + [SetItem(sets[k])] + after
    ensures var head := RangeItems(regs) + (if gpmu.Some? then RangeItems(gpmu.value) else []) + BlockItems(blocks);
            PlacedSets(sets, head)[k] == sets[k].(offset := 4 * Total(before))
  {
    hide RangeItems, BlockItems, SetItems, Total, AllOk, PlacedSets, SetItem;
    var head := RangeItems(regs) + (if gpmu.Some? then RangeItems(gpmu.value) else []) + BlockItems(blocks);
    PlacedAt(sets, head, k);
    SetItemsSplit(sets, k);
    before, after := head + SetItems(sets[..k]), SetItems(sets[k + 1..]);
    Spread(head, SetItems(sets[..k]), [SetItem(sets[k])], after);
  }

  lemma Spread<T>(a: seq<T>, b: seq<T>, c: seq<T>, d: seq<T>)
    ensures a + (b + c + d) == (a + b) + c + d
  {
  }

  lemma WordInside(before: seq<Item>, it: Item, after: seq<Item>, hw: Hardware, sel: u64, j: nat)
    requires j < it.count
    ensures var data := Captured(before + [it] + after, hw, sel);
            && Total(before) + it.count <= |data|
            && data[Total(before) + j] == hw(SelOf(it, SelAfter(before, sel)), it.reg + j)
  {
    hide Captured, Captured1, Total, SelAfter;
    CapturedAppend(before + [it], after, hw, sel);
    CapturedAppend(before, [it], hw, sel);
    CapturedOne(it, hw, SelAfter(before, sel));
    Captured1At(hw, SelOf(it, SelAfter(before, sel)), it.reg, it.count, j);
    TotalAppend(before + [it], after);
    TotalSnoc(before, it);
  }

  lemma {:induction false} PlacedAt(hs: seq<RegSet>, done: seq<Item>, k: nat)
    requires k < |hs|
    ensures PlacedSets(hs, done)[k] == hs[k].(offset := 4 * Total(done + SetItems(hs[..k])))
    decreases |hs|
  {
    if k < |hs| - 1 {
      PlacedAt(hs[..|hs| - 1], done, k);
      assert hs[..|hs| - 1][..k] == hs[..k];
    }
  }

  lemma {:induction false} SetItemsSplit(hs: seq<RegSet>, k: nat)
    requires k < |hs|
    ensures SetItems(hs) == SetItems(hs[..k]) + [SetItem(hs[k])] + SetItems(hs[k + 1..])
    decreases |hs|
  {
    if k == |hs| - 1 {
      assert hs[k + 1..] == [];
    } else {
      var init := hs[..|hs| - 1];
      SetItemsSplit(init, k);
      assert init[..k] == hs[..k];
      assert hs[k + 1..][..|hs| - k - 2] == init[k + 1..];
    }
  }
}
