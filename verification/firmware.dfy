/** Block headers, the GPMU microcode file, and the register sequence file. */
module Firmware {
  import opened Wrappers
  import opened Pm4
  import Gpmu

  const GPMU_FIRMWARE_ID: u32 := 2
  const GPMU_SEQUENCE_ID: u32 := 3
  const GPMU_INST_RAM_SIZE := 0xFFF
  const HEADER_MAJOR: u32 := 1
  const HEADER_SEQUENCE: u32 := 5
  const MAX_HEADER_SIZE := 10
  const LM_SEQUENCE_ID: u32 := 1
  const MAX_SEQUENCE_ID: u32 := 3

  /** A major version field older than the driver asks for; zero is never too old. */
  predicate TooOld(field: u32, value: u32, major: u32) {
    field == HEADER_MAJOR && major > value && value != 0
  }

  /** Header fields come as pairs of an id and a value. */
  predicate VersionsOk(fields: seq<u32>, major: u32) {
    |fields| < 2 || (!TooOld(fields[0], fields[1], major) && VersionsOk(fields[2..], major))
  }

  /** A block header: its size, then its fields, a sequence id first where one is wanted. */
  predicate HeaderOk(h: seq<u32>, remain: nat, id: u32, major: u32)
    requires 1 <= |h| && remain <= |h|
  {
    && 0 < h[0] <= MAX_HEADER_SIZE && h[0] < remain && h[0] % 2 == 0
    && (id == GPMU_SEQUENCE_ID ==> h[1] == HEADER_SEQUENCE && h[2] < MAX_SEQUENCE_ID)
    && VersionsOk(h[(if id == GPMU_SEQUENCE_ID then 3 else 1)..h[0] + 1], major)
  }

  lemma VersionsStep(fields: seq<u32>, major: u32)
    requires |fields| >= 2
    ensures VersionsOk(fields, major) <==>
            !TooOld(fields[0], fields[1], major) && VersionsOk(fields[2..|fields|], major)
  {
    assert fields[2..|fields|] == fields[2..];
  }

  lemma VersionsEnd(fields: seq<u32>, major: u32)
    requires |fields| < 2
    ensures VersionsOk(fields, major)
  {
  }

  /** The two words at `i` name a major version below the one asked for, and not zero. */
  predicate OldAt(ws: seq<u32>, i: nat, major: u32)
    requires i + 1 < |ws|
  {
    ws[i] == 1 && 0 < ws[i + 1] < major
  }

  lemma {:induction false} VersionsIff(fields: seq<u32>, major: u32)
    ensures VersionsOk(fields, major) <==>
            forall i :: 0 <= i < |fields| - 1 && i % 2 == 0 ==> !OldAt(fields, i, major)
  {
    if |fields| >= 2 {
      var rest := fields[2..];
      VersionsIff(rest, major);
      assert TooOld(fields[0], fields[1], major) <==> OldAt(fields, 0, major);
      forall i | 0 <= i < |rest| - 1 ensures OldAt(rest, i, major) <==> OldAt(fields, i + 2, major) {}
      if forall i :: 0 <= i < |rest| - 1 && i % 2 == 0 ==> !OldAt(rest, i, major) {
        forall i | 0 < i < |fields| - 1 && i % 2 == 0 ensures !OldAt(fields, i, major) {
          assert !OldAt(rest, i - 2, major);
        }
      }
    }
  }

  /** The headers that are accepted: two to ten words with room behind them, in pairs; of a sequence one of the known
      ones, first; and with no major version but zero below the one asked for. */
  ghost predicate Acceptable(h: seq<u32>, remain: nat, id: u32, major: u32)
    requires 1 <= |h| && remain <= |h|
  {
    && 2 <= h[0] <= 10 && h[0] % 2 == 0 && h[0] < remain
    && (id == 3 ==> h[1] == 5 && h[2] < 3)
    && forall i :: (if id == 3 then 3 else 1) <= i < h[0] && i % 2 == 1 ==> !OldAt(h, i, major)
  }

  /** Pairs are the same when the words before them are left out. */
  lemma OldShift(h: seq<u32>, from: nat, end: nat, major: u32)
    requires from <= end <= |h| && from % 2 == 1
    ensures (forall i :: 0 <= i < end - from - 1 && i % 2 == 0 ==> !OldAt(h[from..end], i, major)) <==>
            (forall i :: from <= i < end - 1 && i % 2 == 1 ==> !OldAt(h, i, major))
  {
    var fields := h[from..end];
    forall i | 0 <= i < end - from - 1 ensures OldAt(fields, i, major) <==> OldAt(h, from + i, major) {}
    if forall i :: 0 <= i < end - from - 1 && i % 2 == 0 ==> !OldAt(fields, i, major) {
      forall i | from <= i < end - 1 && i % 2 == 1 ensures !OldAt(h, i, major) {
        assert !OldAt(fields, i - from, major);
      }
    }
  }

  lemma HeaderIff(h: seq<u32>, remain: nat, id: u32, major: u32)
    requires 1 <= |h| && remain <= |h|
    ensures HeaderOk(h, remain, id, major) <==> Acceptable(h, remain, id, major)
  {
    hide VersionsOk, OldAt;
    if 2 <= h[0] <= 10 && h[0] % 2 == 0 && h[0] < remain {
      var from, end: nat := if id == 3 then 3 else 1, h[0] + 1;
      if from <= end {
        VersionsIff(h[from..end], major);
        OldShift(h, from, end, major);
      }
    }
  }

  /** Checks the header at an offset. True for success, false for -EINVAL. */
  method ReadBlockHeader(data: seq<u32>, at: nat, remain: nat, id: u32, major: u32) returns (ok: bool)
    requires at < |data| && at + remain <= |data|
    ensures ok == HeaderOk(data[at..], remain, id, major) == Acceptable(data[at..], remain, id, major)
  {
    HeaderIff(data[at..], remain, id, major);
    hide VersionsOk, Acceptable;
    var size := data[at];
    var i := 1;
    if size > MAX_HEADER_SIZE || size >= remain || size % 2 != 0 || size == 0 { return false; }
    if id == GPMU_SEQUENCE_ID {
      if data[at + i] != HEADER_SEQUENCE || data[at + i + 1] >= MAX_SEQUENCE_ID { return false; }
      i := i + 2;
    }
    ghost var end := at + size + 1;
    ghost var from := i;
    DropTake(data, at, from, size + 1);
    while i < size
      invariant from <= i <= size + 1 && i % 2 == 1
      invariant VersionsOk(data[at + from..end], major) == VersionsOk(data[at + i..end], major)
    {
      VersionsStep(data[at + i..end], major);
      SliceSlice(data, at + i, end, 2, end - at - i);
      if data[at + i] == HEADER_MAJOR {
        if major > data[at + i + 1] && data[at + i + 1] != 0 { return false; }
      }
      i := i + 2;
    }
    VersionsEnd(data[at + i..end], major);
    ok := true;
  }

  /** Where a microcode file keeps its code, if it is well formed. */
  function GpmuSlice(data: seq<u32>, major: u32): (r: Option<(nat, nat)>)
    ensures r.Some? ==> data != [] && 1 <= r.value.1 <= 0xFFF
    ensures r.Some? ==> r.value.0 + r.value.1 == data[0] + 1 <= |data|
  {
    if data == [] || data[0] >= |data| || data[0] < 2 || data[1] != GPMU_FIRMWARE_ID
       || !HeaderOk(data[2..], data[0] - 2, GPMU_FIRMWARE_ID, major)
       || data[0] - data[2] - 2 > GPMU_INST_RAM_SIZE then None
    else Some((data[2] + 3, data[0] - data[2] - 2))
  }

  /** A microcode file: a length, the block type, the header with its size, the code; anything may follow. */
  function GpmuFile(header: seq<u32>, code: seq<u32>, rest: seq<u32>): seq<u32>
    requires 2 + |header| + |code| < 0x1_0000_0000
  {
    [2 + |header| + |code|, GPMU_FIRMWARE_ID, |header|] + header + code + rest
  }

  predicate GpmuHeader(header: seq<u32>, major: u32) {
    0 < |header| <= MAX_HEADER_SIZE && |header| % 2 == 0 && VersionsOk(header, major)
  }

  /** The loader finds the code of every file that is laid out so, */
  lemma GpmuSliceOfFile(header: seq<u32>, code: seq<u32>, rest: seq<u32>, major: u32)
    requires GpmuHeader(header, major) && 1 <= |code| <= 0xFFF
    ensures var data := GpmuFile(header, code, rest);
            && GpmuSlice(data, major) == Some((3 + |header|, |code|))
            && data[3 + |header|..3 + |header| + |code|] == code
  {
    var data := GpmuFile(header, code, rest);
    var front := [2 + |header| + |code|, GPMU_FIRMWARE_ID, |header|];
    MiddleSlice(front, header, code + rest);
    MiddleSlice(front + header, code, rest);
    assert data == front + header + (code + rest);
    DropTake(data, 2, 1, |header| + 1);
  }

  /** and accepts no other. */
  lemma FileOfGpmuSlice(data: seq<u32>, major: u32)
    requires GpmuSlice(data, major).Some?
    ensures var (start, size) := GpmuSlice(data, major).value;
            && 3 < start && start + size <= |data|
            && GpmuHeader(data[3..start], major)
            && 2 + |data[3..start]| + |data[start..start + size]| < 0x1_0000_0000
            && data == GpmuFile(data[3..start], data[start..start + size], data[start + size..])
  {
    var (start, size) := GpmuSlice(data, major).value;
    DropTake(data, 2, 1, start - 2);
  }

  datatype Err = Fine | Invalid | OutOfMemory

  /** The header was reached and refused: the one malformation that is reported. */
  predicate BadHeader(data: seq<u32>, major: u32) {
    && data != [] && 2 <= data[0] < |data| && data[1] == GPMU_FIRMWARE_ID
    && !HeaderOk(data[2..], data[0] - 2, GPMU_FIRMWARE_ID, major)
  }

  lemma BadHeaderIff(data: seq<u32>, major: u32)
    ensures BadHeader(data, major) <==>
            data != [] && 2 <= data[0] < |data| && data[1] == 2 && !Acceptable(data[2..], data[0] - 2, 2, major)
  {
    hide HeaderOk, Acceptable;
    if data != [] && 2 <= data[0] < |data| { HeaderIff(data[2..], data[0] - 2, 2, major); }
  }

  /** Loads a microcode file: the stream is built from exactly the file's code, or nothing is built. The first
      word is read before the size is looked at; `stray` is what that read finds behind an empty file. */
  method LoadGpmuFirmware(loader: Gpmu.Loader, data: seq<u32>, stray: u32, major: u32, memory: bool)
    returns (ret: Err)
    modifies loader
    ensures old(loader.cmdsSize) != 0 || GpmuSlice(data, major).None? || old(loader.cmds) != null || !memory
            ==> loader.cmds == old(loader.cmds) && loader.cmdsSize == old(loader.cmdsSize)
    ensures old(loader.cmdsSize) == 0 && GpmuSlice(data, major).Some? && old(loader.cmds) == null && memory ==>
      var (start, size) := GpmuSlice(data, major).value;
      var ws := Encode(Gpmu.LoadPackets(data[start..start + size]));
      && loader.cmds != null && loader.cmdsSize == |ws| <= loader.cmds.Length
      && loader.cmds[..loader.cmdsSize] == ws
    ensures ret == if old(loader.cmdsSize) != 0 then Fine
                   else if BadHeader(data, major) then Invalid
                   else if GpmuSlice(data, major).Some? && old(loader.cmds) == null && !memory then OutOfMemory
                   else Fine
  {
    hide Encode, Gpmu.LoadPackets;
    if loader.cmdsSize != 0 { return Fine; }
    ret := Fine;
    var length := if data == [] then stray else data[0];
    if length >= |data| || length < 2 { return; }
    if data[1] != GPMU_FIRMWARE_ID { return; }
    var good := ReadBlockHeader(data, 2, data[0] - 2, GPMU_FIRMWARE_ID, major);
    if !good { return Invalid; }
    if data[2] > data[0] - 2 { return; }
    var start, size := data[2] + 3, data[0] - data[2] - 2;
    if size > GPMU_INST_RAM_SIZE { return; }
    var built := loader.CreateLoadCmds(data[start..start + size], memory);
    if !built { ret := OutOfMemory; }
  }

  /** What is reported as success although nothing is loaded: every malformation but a bad header. */
  predicate PassedOver(data: seq<u32>, major: u32) {
    || data == [] || data[0] < 2 || data[0] >= |data| || data[1] != GPMU_FIRMWARE_ID
    || (HeaderOk(data[2..], data[0] - 2, GPMU_FIRMWARE_ID, major)
        && data[0] - data[2] - 2 > GPMU_INST_RAM_SIZE)
  }

  lemma PassedOverIff(data: seq<u32>, major: u32)
    ensures PassedOver(data, major) <==> GpmuSlice(data, major).None? && !BadHeader(data, major)
  {
  }

  /** Four such files: the empty one, one that announces more words than it has, one of another kind, and one
      whose code is a word too long for the instruction memory. */
  lemma MalformedButFine(code: seq<u32>, major: u32)
    requires |code| == GPMU_INST_RAM_SIZE + 1
    ensures PassedOver([], major) && PassedOver([5], major) && PassedOver([2, GPMU_SEQUENCE_ID, 0], major)
    ensures PassedOver(GpmuFile([4, 0], code, []), major)
  {
    var data := GpmuFile([4, 0], code, []);
    assert data[..5] == [4 + |code|, GPMU_FIRMWARE_ID, 2, 4, 0];
    assert data[2..][0] == 2 && data[2..][1..3] == [4, 0];
    assert VersionsOk([4, 0], major) by { VersionsStep([4, 0], major); }
  }

  /** A block of the sequence file, without its length word. */
  predicate GoodBlock(b: seq<u32>, major: u32) {
    && 5 <= |b| < 0x1_0000_0000 && b[0] == GPMU_SEQUENCE_ID
    && (b[3] == LM_SEQUENCE_ID ==> HeaderOk(b[1..], |b| - 2, GPMU_SEQUENCE_ID, major))
  }

  lemma GoodBlockIff(b: seq<u32>, major: u32)
    ensures GoodBlock(b, major) <==>
            5 <= |b| < 0x1_0000_0000 && b[0] == 3 && (b[3] == 1 ==> Acceptable(b[1..], |b| - 2, 3, major))
  {
    hide HeaderOk, Acceptable;
    if |b| >= 5 { HeaderIff(b[1..], |b| - 2, 3, major); }
  }

  predicate AllGood(bs: seq<seq<u32>>, major: u32) {
    forall b :: b in bs ==> GoodBlock(b, major)
  }

  function Framed(b: seq<u32>): seq<u32> { [|b| % 0x1_0000_0000] + b }

  function EncodeFile(bs: seq<seq<u32>>): seq<u32> {
    if bs == [] then [] else EncodeFile(bs[..|bs| - 1]) + Framed(bs[|bs| - 1])
  }

  /** The block at the start of the words, if there is a good one. */
  function FirstBlock(ws: seq<u32>, major: u32): (r: Option<seq<u32>>)
    ensures r.Some? ==> |r.value| + 1 <= |ws| && GoodBlock(r.value, major)
  {
    if ws == [] || ws[0] >= |ws| || ws[0] < 5 || !GoodBlock(ws[1..ws[0] + 1], major) then None
    else Some(ws[1..ws[0] + 1])
  }

  function Blocks(ws: seq<u32>, major: u32): seq<seq<u32>>
    decreases |ws|
  {
    match FirstBlock(ws, major)
    case None => []
    case Some(b) => [b] + Blocks(ws[|b| + 1..], major)
  }

  lemma FirstIsFramed(ws: seq<u32>, major: u32)
    requires FirstBlock(ws, major).Some?
    ensures var b := FirstBlock(ws, major).value; ws[..|b| + 1] == Framed(b)
  {
  }

  lemma FirstOfFramed(b: seq<u32>, rest: seq<u32>, major: u32)
    requires GoodBlock(b, major)
    ensures FirstBlock(Framed(b) + rest, major) == Some(b)
  {
    assert (Framed(b) + rest)[1..|b| + 1] == b;
  }

  lemma EncodeFileSnoc(bs: seq<seq<u32>>, b: seq<u32>)
    ensures EncodeFile(bs + [b]) == EncodeFile(bs) + Framed(b)
  {
    assert (bs + [b])[..|bs|] == bs;
  }

  lemma {:induction false} EncodeFileCons(b: seq<u32>, bs: seq<seq<u32>>)
    ensures EncodeFile([b] + bs) == Framed(b) + EncodeFile(bs)
  {
    hide EncodeFile, Framed;
    if bs == [] {
      assert [b] + bs == [] + [b];
      EncodeFileSnoc([], b);
      EncodeNoBlocks();
    } else {
      var init, last := bs[..|bs| - 1], bs[|bs| - 1];
      EncodeFileCons(b, init);
      EncodeFileSnoc([b] + init, last);
      EncodeFileSnoc(init, last);
      assert [b] + init + [last] == [b] + bs && init + [last] == bs;
    }
  }

  lemma EncodeNoBlocks()
    ensures EncodeFile([]) == [] && |EncodeFile([])| == 0
  {
  }

  lemma {:induction false} BlocksArePrefix(ws: seq<u32>, major: u32)
    ensures var n := |EncodeFile(Blocks(ws, major))|;
            n <= |ws| && ws[..n] == EncodeFile(Blocks(ws, major)) && AllGood(Blocks(ws, major), major)
    decreases |ws|
  {
    hide Framed, EncodeFile, FirstBlock, GoodBlock;
    match FirstBlock(ws, major)
    case None => EncodeNoBlocks();
    case Some(b) =>
      var k := |b| + 1;
      FirstIsFramed(ws, major);
      FramedLength(b);
      BlocksArePrefix(ws[k..], major);
      EncodeFileCons(b, Blocks(ws[k..], major));
      var n := |EncodeFile(Blocks(ws[k..], major))|;
      assert ws[k..][..n] == ws[k..k + n];
      JoinSlices(ws, k, k + n);
  }

  lemma FramedLength(b: seq<u32>)
    ensures |Framed(b)| == |b| + 1
  {
  }

  lemma {:induction false} BlocksOfFile(bs: seq<seq<u32>>, major: u32)
    requires AllGood(bs, major)
    ensures Blocks(EncodeFile(bs), major) == bs
  {
    hide Framed, EncodeFile, FirstBlock, GoodBlock;
    if bs == [] {
      EncodeNoBlocks();
      NoFirstBlock(major);
    } else {
      assert bs == [bs[0]] + bs[1..];
      EncodeFileCons(bs[0], bs[1..]);
      FirstOfFramed(bs[0], EncodeFile(bs[1..]), major);
      FramedLength(bs[0]);
      assert (Framed(bs[0]) + EncodeFile(bs[1..]))[|bs[0]| + 1..] == EncodeFile(bs[1..]);
      BlocksOfFile(bs[1..], major);
    }
  }

  lemma NoFirstBlock(major: u32)
    ensures FirstBlock([], major) == None
  {
  }

  /** The file is tiled by good blocks. */
  ghost predicate IsFile(ws: seq<u32>, major: u32) {
    exists bs :: AllGood(bs, major) && EncodeFile(bs) == ws
  }

  lemma FileIff(ws: seq<u32>, major: u32)
    ensures IsFile(ws, major) <==> EncodeFile(Blocks(ws, major)) == ws
  {
    BlocksArePrefix(ws, major);
    if IsFile(ws, major) {
      var bs :| AllGood(bs, major) && EncodeFile(bs) == ws;
      BlocksOfFile(bs, major);
    }
  }

  /** Offset and size of the sequence in the last LM block. */
  function LmSlice(bs: seq<seq<u32>>, major: u32): Option<(nat, nat)>
    requires AllGood(bs, major)
  {
    if bs == [] then None
    else
      var init, b := bs[..|bs| - 1], bs[|bs| - 1];
      assert b in bs;
      if b[3] == LM_SEQUENCE_ID then Some((|EncodeFile(init)| + b[1] + 3, |b| - b[1] - 2)) else LmSlice(init, major)
  }

  /** Block `k` is the last LM block, and the slice is all of it behind its header. */
  predicate IsLmOf(bs: seq<seq<u32>>, k: nat, start: nat, size: nat) {
    && k < |bs| && (forall j :: k <= j < |bs| ==> |bs[j]| > 3 && (bs[j][3] == LM_SEQUENCE_ID <==> j == k))
    && bs[k][1] + 2 < |bs[k]| && size == |bs[k]| - bs[k][1] - 2
    && start == |EncodeFile(bs[..k])| + bs[k][1] + 3
    && start + size <= |EncodeFile(bs)| && EncodeFile(bs)[start..start + size] == bs[k][bs[k][1] + 2..]
  }

  /** The LM slice is not empty, lies inside the last LM block, and is all of it behind the header. */
  lemma {:induction false} LmSliceIsInside(bs: seq<seq<u32>>, major: u32) returns (k: nat)
    requires AllGood(bs, major) && LmSlice(bs, major).Some?
    ensures IsLmOf(bs, k, LmSlice(bs, major).value.0, LmSlice(bs, major).value.1)
  {
    hide IsLmOf, GoodBlock;
    var n := |bs| - 1;
    var init, b := bs[..n], bs[n];
    assert b in bs;
    assert bs == init + [b];
    GoodIsLong(b, major);
    if b[3] == LM_SEQUENCE_ID {
      k := n;
      LmIsLast(init, b, major);
    } else {
      k := LmSliceIsInside(init, major);
      LmIsEarlier(init, b, k, LmSlice(init, major).value.0, LmSlice(init, major).value.1);
    }
  }

  lemma LmIsLast(init: seq<seq<u32>>, b: seq<u32>, major: u32)
    requires GoodBlock(b, major) && b[3] == LM_SEQUENCE_ID
    ensures IsLmOf(init + [b], |init|, |EncodeFile(init)| + b[1] + 3, |b| - b[1] - 2)
  {
    hide EncodeFile, GoodBlock, IsLmOf;
    HeaderLeavesRoom(b, major);
    EncodeFileSnoc(init, b);
    LastSlice(EncodeFile(init), b, EncodeFile(init + [b]), b[1], |EncodeFile(init)| + b[1] + 3, |b| - b[1] - 2);
    IsLmOfLast(init, b, |EncodeFile(init)| + b[1] + 3, |b| - b[1] - 2);
  }

  lemma IsLmOfLast(init: seq<seq<u32>>, b: seq<u32>, start: nat, size: nat)
    requires |b| > 3 && b[3] == LM_SEQUENCE_ID && b[1] + 2 < |b| && size == |b| - b[1] - 2
    requires start == |EncodeFile(init)| + b[1] + 3 && start + size <= |EncodeFile(init + [b])|
    requires EncodeFile(init + [b])[start..start + size] == b[b[1] + 2..]
    ensures IsLmOf(init + [b], |init|, start, size)
  {
    hide EncodeFile;
    assert (init + [b])[..|init|] == init;
  }

  lemma GoodIsLong(b: seq<u32>, major: u32)
    requires GoodBlock(b, major)
    ensures |b| >= 5
  {
  }

  lemma LmIsEarlier(init: seq<seq<u32>>, b: seq<u32>, k: nat, start: nat, size: nat)
    requires IsLmOf(init, k, start, size) && |b| > 3 && b[3] != LM_SEQUENCE_ID
    ensures IsLmOf(init + [b], k, start, size)
  {
    var bs := init + [b];
    assert bs[..|init|] == init && bs[..k] == init[..k];
    PrefixSlice(EncodeFile(init), Framed(b), start, start + size);
  }

  lemma HeaderLeavesRoom(b: seq<u32>, major: u32)
    requires GoodBlock(b, major) && b[3] == LM_SEQUENCE_ID
    ensures 5 <= |b| && b[1] <= MAX_HEADER_SIZE && b[1] + 2 < |b|
  {
  }

  lemma LastSlice(before: seq<u32>, b: seq<u32>, whole: seq<u32>, k: nat, start: nat, size: nat)
    requires k + 2 <= |b| && whole == before + Framed(b)
    requires start == |before| + k + 3 && size == |b| - k - 2
    ensures start + size == |whole| && whole[start..start + size] == b[k + 2..]
  {
  }

  lemma PrefixSlice(a: seq<u32>, b: seq<u32>, i: nat, j: nat)
    requires i <= j <= |a|
    ensures (a + b)[i..j] == a[i..j]
  {
  }

  function Latest(a: Option<(nat, nat)>, b: Option<(nat, nat)>): Option<(nat, nat)> { if a.Some? then a else b }

  class RegFile {
    var lm: Option<(nat, nat)>

    constructor ()
      ensures lm == None
    {
      lm := None;
    }

    /** Reads the sequence file. It is accepted exactly when good blocks tile it and an LM sequence is
        known at the end; the last LM block that was passed determines it. */
    method Load(data: seq<u32>, major: u32) returns (accepted: bool)
      modifies this
      ensures var ws := data[..|data| % 0x1_0000_0000];
              && (|ws| < 6 ==> lm == old(lm) && !accepted)
              && (|ws| >= 6 ==>
                    && AllGood(Blocks(ws, major), major)
                    && lm == Latest(LmSlice(Blocks(ws, major), major), old(lm))
                    && (accepted <==> IsFile(ws, major) && lm.Some?))
    {
      hide EncodeFile, GoodBlock, LmSlice, AllGood, Blocks, IsFile, HeaderOk;
      var fwSize := |data| % 0x1_0000_0000;
      if fwSize < 6 { return false; }
      var ws := data[..fwSize];
      BlocksArePrefix(ws, major);
      FileIff(ws, major);
      EncodeNoBlocks();
      NoLm(major);
      var total := 0;
      ghost var done: seq<seq<u32>> := [];
      assert ws[0..] == ws;
      while total < fwSize
        invariant total <= fwSize && total == |EncodeFile(done)|
        invariant AllGood(done, major) && done + Blocks(ws[total..], major) == Blocks(ws, major)
        invariant lm == Latest(LmSlice(done, major), old(lm))
      {
        var size := ws[total];
        if total + size >= fwSize || size < 5 || ws[total + 1] != GPMU_SEQUENCE_ID {
          StopsHere(ws, total, major);
          assert done + [] == done;
          return false;
        }
        if ws[total + 4] == LM_SEQUENCE_ID {
          var good := ReadBlockHeader(ws, total + 2, size - 2, GPMU_SEQUENCE_ID, major);
          if good { HeaderIsShort(ws[total + 2..], size - 2, major); }
          if !good || ws[total + 2] > size - 2 {
            StopsHere(ws, total, major);
            assert done + [] == done;
            return false;
          }
          lm := Some((total + ws[total + 2] + 3, size - ws[total + 2] - 2));
        }
        GoesOn(ws, total, major);
        ghost var b := BlockAt(ws, total);
        AddBlock(done, b, major);
        ConsSnoc(done, b, Blocks(ws[total + size + 1..], major));
        done := done + [b];
        total := total + size + 1;
      }
      assert ws[total..] == [];
      NoBlocks(major);
      assert done + [] == done;
      accepted := lm.Some?;
    }
  }

  lemma HeaderIsShort(h: seq<u32>, remain: nat, major: u32)
    requires 1 <= |h| && remain <= |h| && HeaderOk(h, remain, GPMU_SEQUENCE_ID, major)
    ensures 0 < h[0] < remain
  {
  }

  lemma NoLm(major: u32)
    ensures AllGood([], major) && LmSlice([], major) == None
  {
  }

  lemma NoBlocks(major: u32)
    ensures Blocks([], major) == []
  {
  }

  /** The block that the words at an offset announce. */
  function BlockAt(ws: seq<u32>, at: nat): seq<u32>
    requires at < |ws| && at + ws[at] < |ws|
  {
    ws[at + 1..at + 1 + ws[at]]
  }

  /** What the loader checks of the block at an offset. */
  predicate Starts(ws: seq<u32>, at: nat, major: u32)
    requires at < |ws|
  {
    && at + ws[at] < |ws| && ws[at] >= 5 && ws[at + 1] == GPMU_SEQUENCE_ID
    && (ws[at + 4] == LM_SEQUENCE_ID ==> HeaderOk(ws[at + 2..], ws[at] - 2, GPMU_SEQUENCE_ID, major))
  }

  lemma StartsIsGood(ws: seq<u32>, at: nat, major: u32)
    requires at < |ws|
    ensures Starts(ws, at, major) <==> at + ws[at] < |ws| && GoodBlock(BlockAt(ws, at), major)
  {
    hide HeaderOk;
    if at + ws[at] < |ws| && ws[at] >= 5 { HeaderInBlock(ws, at, major); }
  }

  lemma StopsHere(ws: seq<u32>, at: nat, major: u32)
    requires at < |ws| && !Starts(ws, at, major)
    ensures Blocks(ws[at..], major) == []
  {
    hide Starts, GoodBlock;
    StartsIsGood(ws, at, major);
    var n: nat := ws[at];
    if at + n < |ws| { DropTake(ws, at, 1, n + 1); }
  }

  lemma GoesOn(ws: seq<u32>, at: nat, major: u32)
    requires at < |ws| && Starts(ws, at, major)
    ensures at + ws[at] < |ws| && GoodBlock(BlockAt(ws, at), major) && |BlockAt(ws, at)| == ws[at]
    ensures BlockAt(ws, at)[3] == ws[at + 4] && BlockAt(ws, at)[1] == ws[at + 2]
    ensures Blocks(ws[at..], major) == [BlockAt(ws, at)] + Blocks(ws[at + ws[at] + 1..], major)
  {
    assert ws[at] >= 5;
    hide Starts, GoodBlock, Blocks;
    StartsIsGood(ws, at, major);
    BlocksFrom(ws, at, major);
  }

  /** The blocks from an offset on are the one there and those behind it. */
  lemma BlocksFrom(ws: seq<u32>, at: nat, major: u32)
    requires at < |ws| && at + ws[at] < |ws| && ws[at] >= 5 && GoodBlock(BlockAt(ws, at), major)
    ensures Blocks(ws[at..], major) == [BlockAt(ws, at)] + Blocks(ws[at + ws[at] + 1..], major)
  {
    hide GoodBlock;
    var n: nat := ws[at];
    DropTake(ws, at, 1, n + 1);
    DropDrop(ws, at, n + 1);
  }

  lemma ConsSnoc<T>(xs: seq<T>, x: T, ys: seq<T>)
    ensures xs + ([x] + ys) == xs + [x] + ys
  {
  }

  /** A header is read the same in its block and in the whole file. */
  lemma HeaderInBlock(ws: seq<u32>, at: nat, major: u32)
    requires at < |ws| && at + ws[at] < |ws| && ws[at] >= 5
    ensures HeaderOk(ws[at + 2..], ws[at] - 2, GPMU_SEQUENCE_ID, major) ==
            HeaderOk(BlockAt(ws, at)[1..], ws[at] - 2, GPMU_SEQUENCE_ID, major)
  {
    var h, g, n := ws[at + 2..], BlockAt(ws, at)[1..], ws[at + 2];
    var size: nat := ws[at];
    assert g == BlockAt(ws, at)[1..size];
    SliceSlice(ws, at + 1, at + 1 + size, 1, size);
    if 3 <= n + 1 && n < size - 2 {
      DropTake(ws, at + 2, 3, n + 1);
      SliceSlice(ws, at + 2, at + 1 + size, 3, n + 1);
    }
  }

  lemma AddBlock(done: seq<seq<u32>>, b: seq<u32>, major: u32)
    requires AllGood(done, major) && GoodBlock(b, major)
    ensures AllGood(done + [b], major)
    ensures |EncodeFile(done + [b])| == |EncodeFile(done)| + |b| + 1
    ensures LmSlice(done + [b], major) ==
            if b[3] == LM_SEQUENCE_ID then Some((|EncodeFile(done)| + b[1] + 3, |b| - b[1] - 2))
            else LmSlice(done, major)
  {
    hide GoodBlock;
    assert (done + [b])[..|done|] == done;
  }
}
