/** The crash-dump script of the a5xx: what it reads, its layout in memory, and what carrying it out
    leaves in the data buffer. */
module CrashScript {
  import opened Wrappers
  import opened Pm4
  import opened RingSpace

  const READ_SEL := 0xBC00
  const APERTURE := 0xA000
  const BANKS := 4
  const REGS := 0x10_0000       // registers that fit above bit 44
  const COUNTS := 0x20_0000     // counts that fit below the write bit
  const FIELD := 0x1000_0000_0000
  const SELECT: u64 := READ_SEL * FIELD + COUNTS + 1

  datatype Range = Range(first: u32, last: u32)
  datatype ShaderBlock = ShaderBlock(statetype: u32, sz: u32, offset: nat)
  datatype RegSet = RegSet(statetype: u32, ahbaddr: u32, size: u32, offset: nat)

  /** One read of the script: what to select first, if anything, and how much to read from where. */
  datatype Item = Item(sel: Option<u64>, reg: nat, count: nat)

  predicate ItemOk(it: Item) { it.reg < REGS && it.count < COUNTS && (it.reg > 0 || it.count > 0) }
  predicate AllOk(items: seq<Item>) { forall it :: it in items ==> ItemOk(it) }

  function SizeOf(r: Range): nat { if r.first <= r.last then r.last - r.first + 1 else 0 }
  function RangeItem(r: Range): Item { Item(None, r.first, SizeOf(r)) }
  function Select(statetype: u32, bank: nat): u64
    requires bank < 0x100
  {
    (statetype * 0x100) % 0x1_0000_0000 + bank
  }
  function SetItem(h: RegSet): Item { Item(Some(Select(h.statetype, 0)), APERTURE, h.size) }

  function RangeItems(rs: seq<Range>): seq<Item> {
    if rs == [] then [] else RangeItems(rs[..|rs| - 1]) + [RangeItem(rs[|rs| - 1])]
  }

  function BankItems(b: ShaderBlock, n: nat): seq<Item>
    requires n <= BANKS
  {
    if n == 0 then [] else BankItems(b, n - 1) + [Item(Some(Select(b.statetype, n - 1)), APERTURE, b.sz)]
  }

  function BlockItems(bs: seq<ShaderBlock>): seq<Item> {
    if bs == [] then [] else BlockItems(bs[..|bs| - 1]) + BankItems(bs[|bs| - 1], BANKS)
  }

  function SetItems(hs: seq<RegSet>): seq<Item> {
    if hs == [] then [] else SetItems(hs[..|hs| - 1]) + [SetItem(hs[|hs| - 1])]
  }

  function Total(items: seq<Item>): nat {
    if items == [] then 0 else items[0].count + Total(items[1..])
  }

  function ItemWords(it: Item, base: u64, offset: nat): seq<u64>
    requires ItemOk(it)
  {
    (if it.sel.Some? then [it.sel.value, SELECT] else [])
    + [(base + offset) % 0x1_0000_0000_0000_0000, it.reg * FIELD + it.count]
  }

  /** The words of a set of 0x32 registers of state type 0x35, read to address 0x1000, as numbers. */
  lemma KnownWords()
    ensures ItemWords(SetItem(RegSet(0x35, 0xE00, 0x32, 0)), 0x1000, 0) ==
            [0x3500, 0xBC0_0000_0020_0001, 0x1000, 0xA00_0000_0000_0032]
  {
    assert Select(0x35, 0) == 0x3500;
  }

  /** The reads of a list, each to the place behind the one before. */
  function Script(items: seq<Item>, base: u64, offset: nat): seq<u64>
    requires AllOk(items)
  {
    if items == [] then []
    else
      assert items[0] in items;
      ItemWords(items[0], base, offset) + Script(items[1..], base, offset + 4 * items[0].count)
  }

  lemma {:induction false} TotalAppend(a: seq<Item>, b: seq<Item>)
    ensures Total(a + b) == Total(a) + Total(b)
  {
    if a == [] {
      assert a + b == b;
    } else {
      TotalAppend(a[1..], b);
      assert (a + b)[1..] == a[1..] + b;
    }
  }

  lemma TotalOne(it: Item)
    ensures Total([it]) == it.count
  {
    assert [it][1..] == [];
  }

  lemma OkAppend(a: seq<Item>, b: seq<Item>)
    ensures AllOk(a + b) <==> AllOk(a) && AllOk(b)
  {
    assert forall it :: it in a || it in b <==> it in a + b;
  }

  lemma ScriptHead(items: seq<Item>, base: u64, offset: nat)
    requires items != [] && AllOk(items)
    ensures ItemOk(items[0]) && AllOk(items[1..]) && Total(items) == items[0].count + Total(items[1..])
    ensures Script(items, base, offset) ==
            ItemWords(items[0], base, offset) + Script(items[1..], base, offset + 4 * items[0].count)
  {
    hide ItemWords, ItemOk;
    assert items[0] in items;
  }

  lemma {:induction false} ScriptAppend(a: seq<Item>, b: seq<Item>, base: u64, offset: nat)
    requires AllOk(a) && AllOk(b) && AllOk(a + b)
    ensures Script(a + b, base, offset) == Script(a, base, offset) + Script(b, base, offset + 4 * Total(a))
  {
    hide ItemWords, AllOk, Script, Total;
    if a == [] {
      assert a + b == b;
      NoScript(base, offset);
    } else {
      AppendSlices(a, b, 1);
      ScriptHead(a, base, offset);
      ScriptHead(a + b, base, offset);
      ScriptAppend(a[1..], b, base, offset + 4 * a[0].count);
      RegroupAll(ItemWords(a[0], base, offset), Script(a[1..], base, offset + 4 * a[0].count),
              Script(b, base, offset + 4 * Total(a)));
    }
  }

  lemma NoScript(base: u64, offset: nat)
    ensures Script([], base, offset) == [] && Total([]) == 0 && AllOk([])
  {
  }

  lemma ScriptSnoc(a: seq<Item>, it: Item, base: u64)
    requires AllOk(a) && ItemOk(it)
    ensures AllOk(a + [it])
    ensures Script(a + [it], base, 0) == Script(a, base, 0) + ItemWords(it, base, 4 * Total(a))
    ensures Total(a + [it]) == Total(a) + it.count
  {
    hide ItemWords, ItemOk;
    ScriptAppend(a, [it], base, 0);
    TotalAppend(a, [it]);
    TotalOne(it);
    assert [it][1..] == [];
    var at := 4 * Total(a);
    assert Script([it], base, at) == ItemWords(it, base, at) + Script([], base, at + 4 * it.count);
  }

  /** Registers as the dumper sees them: by what is selected, and by number. */
  type Hardware = (u64, nat) -> u32

  function Captured1(hw: Hardware, sel: u64, reg: nat, count: nat): (ws: seq<u32>)
    ensures |ws| == count
  {
    if count == 0 then [] else Captured1(hw, sel, reg, count - 1) + [hw(sel, reg + count - 1)]
  }

  lemma {:induction false} Captured1At(hw: Hardware, sel: u64, reg: nat, count: nat, i: nat)
    requires i < count
    ensures Captured1(hw, sel, reg, count)[i] == hw(sel, reg + i)
  {
    if i < count - 1 { Captured1At(hw, sel, reg, count - 1, i); }
  }

  function SelOf(it: Item, sel: u64): u64 { if it.sel.Some? then it.sel.value else sel }

  function SelAfter(items: seq<Item>, sel: u64): u64 {
    if items == [] then sel else SelAfter(items[1..], SelOf(items[0], sel))
  }

  /** The words of a list of reads, in order. */
  function Captured(items: seq<Item>, hw: Hardware, sel: u64): (ws: seq<u32>)
    ensures |ws| == Total(items)
  {
    if items == [] then []
    else Captured1(hw, SelOf(items[0], sel), items[0].reg, items[0].count)
         + Captured(items[1..], hw, SelOf(items[0], sel))
  }

  lemma CapturedHead(items: seq<Item>, hw: Hardware, sel: u64)
    requires items != []
    ensures Captured(items, hw, sel) == Captured1(hw, SelOf(items[0], sel), items[0].reg, items[0].count)
                                        + Captured(items[1..], hw, SelOf(items[0], sel))
  {
  }

  lemma CapturedNothing(hw: Hardware, sel: u64)
    ensures Captured([], hw, sel) == [] && SelAfter([], sel) == sel
  {
  }

  lemma {:induction false} CapturedAppend(a: seq<Item>, b: seq<Item>, hw: Hardware, sel: u64)
    ensures Captured(a + b, hw, sel) == Captured(a, hw, sel) + Captured(b, hw, SelAfter(a, sel))
  {
    hide Captured1, Captured, Total;
    if a == [] {
      assert a + b == b;
      CapturedNothing(hw, sel);
    } else {
      CapturedAppend(a[1..], b, hw, SelOf(a[0], sel));
      AppendSlices(a, b, 1);
      CapturedHead(a, hw, sel);
      CapturedHead(a + b, hw, sel);
      var ws := Captured1(hw, SelOf(a[0], sel), a[0].reg, a[0].count);
      RegroupAll(ws, Captured(a[1..], hw, SelOf(a[0], sel)), Captured(b, hw, SelAfter(a, sel)));
    }
  }

  /** Carries out a script: pairs of words, up to a pair of zeros. None if a read leaves the buffer or
      the script ends without the zeros. */
  function Dump(qs: seq<u64>, base: u64, hw: Hardware, sel: u64, out: seq<u32>): Option<seq<u32>>
    decreases |qs|
  {
    if |qs| < 2 then None
    else if qs[0] == 0 && qs[1] == 0 then Some(out)
    else
      var reg, count := qs[1] / FIELD, qs[1] % COUNTS;
      if (qs[1] / COUNTS) % 2 == 1 then Dump(qs[2..], base, hw, if reg == READ_SEL then qs[0] else sel, out)
      else if qs[0] < base || (qs[0] - base) % 4 != 0 || (qs[0] - base) / 4 + count > |out| then None
      else Dump(qs[2..], base, hw, sel, Splice(out, (qs[0] - base) / 4, Captured1(hw, sel, reg, count)))
  }

  lemma ReadFields(reg: nat, count: nat)
    requires reg < REGS && count < COUNTS
    ensures var q := reg * FIELD + count;
            q / FIELD == reg && q % COUNTS == count && (q / COUNTS) % 2 == 0 && (q == 0 <==> reg == 0 && count == 0)
  {
    var q := reg * FIELD + count;
    assert q == reg * 0x80_0000 * COUNTS + count;
    assert q / COUNTS == reg * 0x80_0000;
  }

  lemma SelectFields()
    ensures SELECT / FIELD == READ_SEL && (SELECT / COUNTS) % 2 == 1
  {
  }

  lemma DumpSelect(s: u64, qs: seq<u64>, base: u64, hw: Hardware, sel: u64, out: seq<u32>)
    ensures Dump([s, SELECT] + qs, base, hw, sel, out) == Dump(qs, base, hw, s, out)
  {
    SelectFields();
    assert ([s, SELECT] + qs)[2..] == qs;
  }

  lemma DumpRead(it: Item, qs: seq<u64>, base: u64, at: nat, hw: Hardware, sel: u64, out: seq<u32>)
    requires ItemOk(it) && base + 4 * (at + it.count) < 0x1_0000_0000_0000_0000 && at + it.count <= |out|
    ensures Dump([base + 4 * at, it.reg * FIELD + it.count] + qs, base, hw, sel, out) ==
            Dump(qs, base, hw, sel, Splice(out, at, Captured1(hw, sel, it.reg, it.count)))
  {
    hide Splice, Captured1;
    ReadFields(it.reg, it.count);
    assert ([base + 4 * at, it.reg * FIELD + it.count] + qs)[2..] == qs;
    assert (base + 4 * at - base) / 4 == at && (base + 4 * at - base) % 4 == 0;
  }

  lemma DumpItem(it: Item, qs: seq<u64>, base: u64, at: nat, hw: Hardware, sel: u64, out: seq<u32>)
    requires ItemOk(it) && base + 4 * (at + it.count) < 0x1_0000_0000_0000_0000 && at + it.count <= |out|
    ensures Dump(ItemWords(it, base, 4 * at) + qs, base, hw, sel, out) ==
            Dump(qs, base, hw, SelOf(it, sel), Splice(out, at, Captured1(hw, SelOf(it, sel), it.reg, it.count)))
  {
    hide Dump, Splice, Captured1;
    var read := [base + 4 * at, it.reg * FIELD + it.count];
    DumpRead(it, qs, base, at, hw, SelOf(it, sel), out);
    if it.sel.Some? {
      DumpSelect(it.sel.value, read + qs, base, hw, sel, out);
      assert ItemWords(it, base, 4 * at) + qs == [it.sel.value, SELECT] + (read + qs);
    } else {
      assert ItemWords(it, base, 4 * at) + qs == read + qs;
    }
  }

  lemma DumpNothing(base: u64, at: nat, hw: Hardware, sel: u64, out: seq<u32>)
    requires at <= |out|
    ensures Dump(Script([], base, 4 * at) + [0, 0], base, hw, sel, out) == Some(Splice(out, at, Captured([], hw, sel)))
  {
    NoScript(base, 4 * at);
    assert Splice(out, at, []) == out;
  }

  lemma SpliceLength(m: seq<u32>, at: nat, ws: seq<u32>)
    requires at + |ws| <= |m|
    ensures |Splice(m, at, ws)| == |m|
  {
  }

  /** A script puts the words of its reads behind one another, from its first destination on. */
  lemma {:induction false} DumpRuns(items: seq<Item>, base: u64, at: nat, hw: Hardware, sel: u64, out: seq<u32>)
    requires AllOk(items) && base + 4 * (at + Total(items)) < 0x1_0000_0000_0000_0000
    requires at + Total(items) <= |out|
    ensures Dump(Script(items, base, 4 * at) + [0, 0], base, hw, sel, out) ==
            Some(Splice(out, at, Captured(items, hw, sel)))
    decreases |items|
  {
    hide Dump, ItemWords, Captured1, Script, Captured, Total, AllOk, ItemOk, Splice;
    if items == [] {
      DumpNothing(base, at, hw, sel, out);
    } else {
      var it, rest := items[0], items[1..];
      ScriptHead(items, base, 4 * at);
      CapturedHead(items, hw, sel);
      var tail := Script(rest, base, 4 * at + 4 * it.count);
      var ws := Captured1(hw, SelOf(it, sel), it.reg, it.count);
      DumpItem(it, tail + [0, 0], base, at, hw, sel, out);
      RegroupAll(ItemWords(it, base, 4 * at), tail, [0, 0]);
      SpliceLength(out, at, ws);
      DumpRuns(rest, base, at + it.count, hw, SelOf(it, sel), Splice(out, at, ws));
      SpliceSplice(out, at, ws, Captured(rest, hw, SelOf(it, sel)));
    }
  }

  /** The destinations tile the data buffer: whatever was in it, carrying out the script fills it with
      exactly the captured words, in the order of the reads, and touches nothing outside it. */
  lemma ScriptFillsBuffer(items: seq<Item>, base: u64, hw: Hardware, sel: u64, out: seq<u32>)
    requires AllOk(items) && |out| == Total(items) && base + 4 * |out| < 0x1_0000_0000_0000_0000
    ensures Dump(Script(items, base, 0) + [0, 0], base, hw, sel, out) == Some(Captured(items, hw, sel))
  {
    DumpRuns(items, base, 0, hw, sel, out);
    WholeSplice(out, Captured(items, hw, sel));
  }

  lemma WholeSplice(out: seq<u32>, ws: seq<u32>)
    requires |ws| == |out|
    ensures Splice(out, 0, ws) == ws
  {
  }

  /** Tables whose entries fit the fields of the script. */
  predicate RangesFit(rs: seq<Range>) {
    forall r :: r in rs ==> r.first <= r.last < REGS
  }

  predicate TablesFit(regs: seq<Range>, gpmu: Option<seq<Range>>, blocks: seq<ShaderBlock>, sets: seq<RegSet>) {
    && RangesFit(regs) && (gpmu.Some? ==> RangesFit(gpmu.value))
    && (forall b :: b in blocks ==> b.sz < COUNTS) && (forall h :: h in sets ==> h.size < COUNTS)
  }

  lemma {:induction false} RangesOk(rs: seq<Range>)
    requires RangesFit(rs)
    ensures AllOk(RangeItems(rs)) && |RangeItems(rs)| == |rs|
  {
    if rs != [] {
      RangesOk(rs[..|rs| - 1]);
    }
  }

  lemma {:induction false} BanksOk(b: ShaderBlock, n: nat)
    requires b.sz < COUNTS && n <= BANKS
    ensures AllOk(BankItems(b, n)) && |BankItems(b, n)| == n && Total(BankItems(b, n)) == n * b.sz
  {
    if n > 0 {
      BanksOk(b, n - 1);
      TotalAppend(BankItems(b, n - 1), [Item(Some(Select(b.statetype, n - 1)), APERTURE, b.sz)]);
      TotalOne(Item(Some(Select(b.statetype, n - 1)), APERTURE, b.sz));
    }
  }

  lemma {:induction false} BlocksOk(bs: seq<ShaderBlock>)
    requires forall b :: b in bs ==> b.sz < COUNTS
    ensures AllOk(BlockItems(bs))
  {
    if bs != [] {
      BlocksOk(bs[..|bs| - 1]);
      BanksOk(bs[|bs| - 1], BANKS);
      OkAppend(BlockItems(bs[..|bs| - 1]), BankItems(bs[|bs| - 1], BANKS));
    }
  }

  lemma {:induction false} SetsOk(hs: seq<RegSet>)
    requires forall h :: h in hs ==> h.size < COUNTS
    ensures AllOk(SetItems(hs))
  {
    if hs != [] {
      SetsOk(hs[..|hs| - 1]);
    }
  }

  lemma PartsOk(regs: seq<Range>, gpmu: Option<seq<Range>>, blocks: seq<ShaderBlock>, sets: seq<RegSet>)
    requires TablesFit(regs, gpmu, blocks, sets)
    ensures AllOk(RangeItems(regs) + (if gpmu.Some? then RangeItems(gpmu.value) else [])
                  + BlockItems(blocks) + SetItems(sets))
  {
    hide AllOk, RangesFit;
    RangesOk(regs);
    NoScript(0, 0);
    if gpmu.Some? { RangesOk(gpmu.value); }
    BlocksOk(blocks);
    SetsOk(sets);
    var g := if gpmu.Some? then RangeItems(gpmu.value) else [];
    OkAppend(RangeItems(regs), g);
    OkAppend(RangeItems(regs) + g, BlockItems(blocks));
    OkAppend(RangeItems(regs) + g + BlockItems(blocks), SetItems(sets));
  }

  /** Everything the script of a device reads. */
  function Items(regs: seq<Range>, gpmu: Option<seq<Range>>, blocks: seq<ShaderBlock>, sets: seq<RegSet>)
    : (items: seq<Item>)
    requires TablesFit(regs, gpmu, blocks, sets)
    ensures AllOk(items)
  {
    PartsOk(regs, gpmu, blocks, sets);
    RangeItems(regs) + (if gpmu.Some? then RangeItems(gpmu.value) else []) + BlockItems(blocks) + SetItems(sets)
  }
}
