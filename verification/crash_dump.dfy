/** The crash dumper of the a5xx as the driver sets it up, and the snapshot sections read back from it. */
module CrashDump {
  import opened Wrappers
  import opened Pm4
  import opened RingSpace
  import opened CrashScript

  /** The tables with the place in the data of every entry, behind the reads `done`. */
  function PlacedBlocks(bs: seq<ShaderBlock>, done: seq<Item>): (r: seq<ShaderBlock>)
    ensures |r| == |bs|
  {
    if bs == [] then []
    else
      var init := bs[..|bs| - 1];
      PlacedBlocks(init, done) + [bs[|bs| - 1].(offset := 4 * Total(done + BlockItems(init)))]
  }

  function PlacedSets(hs: seq<RegSet>, done: seq<Item>): (r: seq<RegSet>)
    ensures |r| == |hs|
  {
    if hs == [] then []
    else
      var init := hs[..|hs| - 1];
      PlacedSets(init, done) + [hs[|hs| - 1].(offset := 4 * Total(done + SetItems(init)))]
  }

  /** The script in `ptr` so far is that of the reads `done`. */
  ghost predicate Holds(ptr: array<u64>, at: nat, offset: nat, base: u64, done: seq<Item>)
    reads ptr
  {
    && AllOk(done) && at <= ptr.Length && offset == 4 * Total(done) && ptr[..at] == Script(done, base, 0)
  }

  method EmitItem(ptr: array<u64>, at: nat, offset: nat, base: u64, it: Item, ghost done: seq<Item>)
    returns (end: nat, next: nat)
    requires Holds(ptr, at, offset, base, done) && ItemOk(it)
    requires at + (if it.sel.Some? then 4 else 2) <= ptr.Length
    modifies ptr
    ensures Holds(ptr, end, next, base, done + [it])
    ensures end == at + (if it.sel.Some? then 4 else 2) && next == offset + 4 * it.count
  {
    hide Script, AllOk, ItemOk, Total;
    ghost var before := ptr[..at];
    ScriptSnoc(done, it, base);
    Fields(it);
    end := at;
    if it.sel.Some? {
      ptr[end], ptr[end + 1] := it.sel.value, SELECT;
      end := end + 2;
      assert ptr[..end] == before + [it.sel.value, SELECT];
    }
    ghost var middle := ptr[..end];
    ptr[end] := (base + offset) % 0x1_0000_0000_0000_0000;
    ptr[end + 1] := it.reg * FIELD + it.count;
    end := end + 2;
    next := offset + 4 * it.count;
    assert ptr[..end] == middle + [(base + offset) % 0x1_0000_0000_0000_0000, it.reg * FIELD + it.count];
    assert ptr[..end] == before + ItemWords(it, base, offset);
  }

  lemma Fields(it: Item)
    requires ItemOk(it)
    ensures 0 <= it.reg * FIELD + it.count < 0x1_0000_0000_0000_0000
  {
  }

  /** One read for every register range. */
  method WriteRanges(ptr: array<u64>, at: nat, offset: nat, base: u64, rs: seq<Range>, ghost done: seq<Item>)
    returns (end: nat, next: nat)
    requires Holds(ptr, at, offset, base, done) && RangesFit(rs) && at + 2 * |rs| <= ptr.Length
    modifies ptr
    ensures Holds(ptr, end, next, base, done + RangeItems(rs)) && end == at + 2 * |rs|
  {
    hide Holds;
    end, next := at, offset;
    assert done + RangeItems([]) == done;
    for j := 0 to |rs|
      invariant Holds(ptr, end, next, base, done + RangeItems(rs[..j])) && end == at + 2 * j
    {
      assert rs[j] in rs;
      end, next := EmitItem(ptr, end, next, base, Item(None, rs[j].first, rs[j].last - rs[j].first + 1),
                            done + RangeItems(rs[..j]));
      assert rs[..j + 1][..j] == rs[..j];
      RegroupAll(done, RangeItems(rs[..j]), [RangeItem(rs[j])]);
    }
    assert rs[..|rs|] == rs;
  }

  /** Every bank of a block: the aperture, then one read. */
  method InitShader(ptr: array<u64>, at: nat, offset: nat, base: u64, b: ShaderBlock, ghost done: seq<Item>)
    returns (end: nat, next: nat, first: nat)
    requires Holds(ptr, at, offset, base, done) && b.sz < COUNTS && at + 4 * BANKS <= ptr.Length
    modifies ptr
    ensures Holds(ptr, end, next, base, done + BankItems(b, BANKS)) && end == at + 4 * BANKS && first == offset
  {
    hide Holds;
    end, next, first := at, offset, offset;
    assert done + BankItems(b, 0) == done;
    for j := 0 to BANKS
      invariant Holds(ptr, end, next, base, done + BankItems(b, j)) && end == at + 4 * j
      invariant first == offset && (j == 0 ==> next == offset)
    {
      if j == 0 { first := next; }
      var it := Item(Some(Select(b.statetype, j)), APERTURE, b.sz);
      end, next := EmitItem(ptr, end, next, base, it, done + BankItems(b, j));
      RegroupAll(done, BankItems(b, j), [it]);
    }
  }

  method WriteBlocks(ptr: array<u64>, at: nat, offset: nat, base: u64, blocks: array<ShaderBlock>,
                     ghost done: seq<Item>)
    returns (end: nat, next: nat)
    requires Holds(ptr, at, offset, base, done) && at + 16 * blocks.Length <= ptr.Length
    requires forall b :: b in blocks[..] ==> b.sz < COUNTS
    modifies ptr, blocks
    ensures Holds(ptr, end, next, base, done + BlockItems(old(blocks[..]))) && end == at + 16 * blocks.Length
    ensures blocks[..] == PlacedBlocks(old(blocks[..]), done)
  {
    hide Holds, Total, BankItems;
    ghost var was := blocks[..];
    end, next := at, offset;
    assert done + BlockItems(was[..0]) == done;
    for i := 0 to blocks.Length
      invariant Holds(ptr, end, next, base, done + BlockItems(was[..i])) && end == at + 16 * i
      invariant blocks[..i] == PlacedBlocks(was[..i], done) && blocks[i..] == was[i..]
    {
      assert was[i] in was;
      HoldsOffset(ptr, end, next, base, done + BlockItems(was[..i]));
      var first;
      end, next, first := InitShader(ptr, end, next, base, blocks[i], done + BlockItems(was[..i]));
      blocks[i] := blocks[i].(offset := first);
      assert was[..i + 1][..i] == was[..i];
      assert blocks[..i + 1] == blocks[..i] + [blocks[i]];
      RegroupAll(done, BlockItems(was[..i]), BankItems(was[i], BANKS));
    }
    assert was[..blocks.Length] == was;
  }

  lemma HoldsOffset(ptr: array<u64>, at: nat, offset: nat, base: u64, done: seq<Item>)
    requires Holds(ptr, at, offset, base, done)
    ensures offset == 4 * Total(done)
  {
  }

  method WriteSets(ptr: array<u64>, at: nat, offset: nat, base: u64, sets: array<RegSet>, ghost done: seq<Item>)
    returns (end: nat, next: nat)
    requires Holds(ptr, at, offset, base, done) && at + 4 * sets.Length <= ptr.Length
    requires forall h :: h in sets[..] ==> h.size < COUNTS
    modifies ptr, sets
    ensures Holds(ptr, end, next, base, done + SetItems(old(sets[..]))) && end == at + 4 * sets.Length
    ensures sets[..] == PlacedSets(old(sets[..]), done)
  {
    hide Holds, Total;
    ghost var was := sets[..];
    end, next := at, offset;
    assert done + SetItems(was[..0]) == done;
    for i := 0 to sets.Length
      invariant Holds(ptr, end, next, base, done + SetItems(was[..i])) && end == at + 4 * i
      invariant sets[..i] == PlacedSets(was[..i], done) && sets[i..] == was[i..]
    {
      assert was[i] in was;
      HoldsOffset(ptr, end, next, base, done + SetItems(was[..i]));
      var first := next;
      end, next := EmitItem(ptr, end, next, base, SetItem(sets[i]), done + SetItems(was[..i]));
      sets[i] := sets[i].(offset := first);
      assert was[..i + 1][..i] == was[..i];
      assert sets[..i + 1] == sets[..i] + [sets[i]];
      RegroupAll(done, SetItems(was[..i]), [SetItem(was[i])]);
    }
    assert was[..sets.Length] == was;
  }

  lemma TotalSnoc(items: seq<Item>, it: Item)
    ensures Total(items + [it]) == Total(items) + it.count
  {
    TotalAppend(items, [it]);
    TotalOne(it);
  }

  /** The data bytes of register ranges. */
  method RangeBytes(rs: seq<Range>) returns (bytes: nat)
    requires RangesFit(rs)
    ensures bytes == 4 * Total(RangeItems(rs))
  {
    bytes := 0;
    for j := 0 to |rs|
      invariant bytes == 4 * Total(RangeItems(rs[..j]))
    {
      assert rs[j] in rs && rs[..j + 1][..j] == rs[..j];
      TotalSnoc(RangeItems(rs[..j]), RangeItem(rs[j]));
      bytes := bytes + (rs[j].last - rs[j].first + 1) * 4;
    }
    assert rs[..|rs|] == rs;
  }

  method BlockBytes(blocks: array<ShaderBlock>) returns (script: nat, bytes: nat)
    requires forall b :: b in blocks[..] ==> b.sz < COUNTS
    ensures script == 128 * blocks.Length && bytes == 4 * Total(BlockItems(blocks[..]))
  {
    script, bytes := 0, 0;
    for i := 0 to blocks.Length
      invariant script == 128 * i && bytes == 4 * Total(BlockItems(blocks[..i]))
    {
      assert blocks[i] in blocks[..] && blocks[..i + 1][..i] == blocks[..i];
      BanksOk(blocks[i], BANKS);
      TotalAppend(BlockItems(blocks[..i]), BankItems(blocks[i], BANKS));
      script := script + 32 * BANKS;
      bytes := bytes + blocks[i].sz * 4 * BANKS;
    }
    assert blocks[..blocks.Length] == blocks[..];
  }

  method SetBytes(sets: array<RegSet>) returns (script: nat, bytes: nat)
    ensures script == 32 * sets.Length && bytes == 4 * Total(SetItems(sets[..]))
  {
    script, bytes := 0, 0;
    for i := 0 to sets.Length
      invariant script == 32 * i && bytes == 4 * Total(SetItems(sets[..i]))
    {
      assert sets[..i + 1][..i] == sets[..i];
      TotalSnoc(SetItems(sets[..i]), SetItem(sets[i]));
      script := script + 32;
      bytes := bytes + sets[i].size * 4;
    }
    assert sets[..sets.Length] == sets[..];
  }

  /** The bytes of the script, its two closing words aside, and of the data. */
  method Sizes(regs: seq<Range>, gpmu: Option<seq<Range>>, blocks: array<ShaderBlock>, sets: array<RegSet>)
    returns (scriptSize: nat, dataSize: nat)
    requires TablesFit(regs, gpmu, blocks[..], sets[..])
    ensures scriptSize == 16 * |regs| + (if gpmu.Some? then 16 * |gpmu.value| else 0)
                          + 128 * blocks.Length + 32 * sets.Length
    ensures dataSize == 4 * Total(Items(regs, gpmu, blocks[..], sets[..]))
  {
    hide Total, RangeItems, BlockItems, SetItems;
    scriptSize := |regs| * 16;
    dataSize := RangeBytes(regs);
    ghost var done := RangeItems(regs);
    ghost var more: seq<Item> := [];
    NothingTotal();
    if gpmu.Some? {
      scriptSize := scriptSize + |gpmu.value| * 16;
      var bytes := RangeBytes(gpmu.value);
      dataSize := dataSize + bytes;
      more := RangeItems(gpmu.value);
    }
    TotalAppend(done, more);
    var blockScript, blockBytes := BlockBytes(blocks);
    TotalAppend(done + more, BlockItems(blocks[..]));
    var setScript, setBytes := SetBytes(sets);
    TotalAppend(done + more + BlockItems(blocks[..]), SetItems(sets[..]));
    scriptSize := scriptSize + blockScript + setScript;
    dataSize := dataSize + blockBytes + setBytes;
  }

  lemma NothingTotal()
    ensures Total([]) == 0
  {
  }

  /** Sizes both buffers and builds the script: it fills its buffer to the last word, and every block and
      set remembers where its data will be. */
  method CrashdumpInit(regs: seq<Range>, gpmu: Option<seq<Range>>, blocks: array<ShaderBlock>, sets: array<RegSet>,
                       base: u64, script: array<u64>)
    returns (scriptSize: nat, dataSize: nat)
    requires TablesFit(regs, gpmu, blocks[..], sets[..])
    requires 8 * script.Length == 16 * |regs| + (if gpmu.Some? then 16 * |gpmu.value| else 0)
                                  + 128 * blocks.Length + 32 * sets.Length + 16
    modifies blocks, sets, script
    ensures 8 * script.Length == scriptSize + 16
    ensures var items := Items(regs, gpmu, old(blocks[..]), old(sets[..]));
            && dataSize == 4 * Total(items)
            && script[..] == Script(items, base, 0) + [0, 0]
    ensures var head := RangeItems(regs) + if gpmu.Some? then RangeItems(gpmu.value) else [];
            && blocks[..] == PlacedBlocks(old(blocks[..]), head)
            && sets[..] == PlacedSets(old(sets[..]), head + BlockItems(old(blocks[..])))
  {
    hide Total, RangeItems, BlockItems, SetItems, PlacedBlocks, PlacedSets, Holds, Script, AllOk, RangesFit;
    ghost var wasBlocks, wasSets := blocks[..], sets[..];
    scriptSize, dataSize := Sizes(regs, gpmu, blocks, sets);
    ghost var done := RangeItems(regs);
    HoldsNothing(script, base);
    var at, offset := WriteRanges(script, 0, 0, base, regs, []);
    assert [] + done == done;
    if gpmu.Some? {
      at, offset := WriteRanges(script, at, offset, base, gpmu.value, done);
      done := done + RangeItems(gpmu.value);
    } else {
      assert done + [] == done;
    }
    ghost var head := done;
    at, offset := WriteBlocks(script, at, offset, base, blocks, head);
    done := head + BlockItems(wasBlocks);
    at, offset := WriteSets(script, at, offset, base, sets, done);
    HoldsScript(script, at, offset, base, done + SetItems(wasSets));
    script[at], script[at + 1] := 0, 0;
    assert script[..] == script[..at] + [0, 0];
  }

  lemma HoldsNothing(ptr: array<u64>, base: u64)
    ensures Holds(ptr, 0, 0, base, [])
  {
    NoScript(base, 0);
  }

  lemma HoldsScript(ptr: array<u64>, at: nat, offset: nat, base: u64, done: seq<Item>)
    requires Holds(ptr, at, offset, base, done)
    ensures AllOk(done) && at <= ptr.Length && ptr[..at] == Script(done, base, 0)
  {
  }
}
