/** The command stream that loads GPMU microcode, in packets of bounded size. */
module Gpmu {
  import opened Wrappers
  import opened Pm4
  import opened RingSpace
  import A = A5xxStream

  const TYPE4_MAX_PAYLOAD := 127
  const INST_RAM_BASE := 0x8800
  const REGISTERS := 0x4_0000   // what the register field of a header can name

  /** Where the packets may end. */
  predicate Boundary(ucode: seq<u32>, offset: nat) {
    offset <= |ucode| && (offset % TYPE4_MAX_PAYLOAD == 0 || offset == |ucode|)
  }

  function Before(offset: nat): nat
    requires offset > 0
  {
    (offset - 1) / TYPE4_MAX_PAYLOAD * TYPE4_MAX_PAYLOAD
  }

  /** The packets that load the words before `offset`. */
  function Chunks(ucode: seq<u32>, offset: nat): seq<Packet>
    requires offset <= |ucode|
    decreases offset
  {
    if offset == 0 then []
    else Chunks(ucode, Before(offset)) + [T4(INST_RAM_BASE + Before(offset), ucode[Before(offset)..offset])]
  }

  function LoadPackets(ucode: seq<u32>): seq<Packet> {
    [A.Protected(0)] + Chunks(ucode, |ucode|) + [A.Protected(1)]
  }

  lemma BeforeIsBoundary(ucode: seq<u32>, offset: nat)
    requires Boundary(ucode, offset) && offset > 0
    ensures Boundary(ucode, Before(offset)) && 1 <= offset - Before(offset) <= TYPE4_MAX_PAYLOAD
    ensures (offset + 126) / 127 == (Before(offset) + 126) / 127 + 1
  {
    var k := (offset - 1) / TYPE4_MAX_PAYLOAD;
    assert offset - 1 == k * TYPE4_MAX_PAYLOAD + (offset - 1) % TYPE4_MAX_PAYLOAD;
    assert (k * 127 + 126) / 127 == k;
    assert (offset + 126) / 127 == k + 1;
  }

  /** One step of the loop ends at a boundary again. */
  lemma NextBoundary(ucode: seq<u32>, offset: nat, n: nat)
    requires Boundary(ucode, offset) && offset < |ucode|
    requires n == if |ucode| - offset >= TYPE4_MAX_PAYLOAD then TYPE4_MAX_PAYLOAD else |ucode| - offset
    ensures Boundary(ucode, offset + n) && Before(offset + n) == offset
  {
    var k := offset / TYPE4_MAX_PAYLOAD;
    assert offset == k * TYPE4_MAX_PAYLOAD;
    assert (offset + n - 1) / TYPE4_MAX_PAYLOAD == k;
    assert n == TYPE4_MAX_PAYLOAD ==> (k + 1) * TYPE4_MAX_PAYLOAD % TYPE4_MAX_PAYLOAD == 0;
  }

  /** Every packet is a legal one, and the packets take one dword each beside the microcode. */
  lemma {:induction false} ChunksFit(ucode: seq<u32>, offset: nat)
    requires Boundary(ucode, offset) && INST_RAM_BASE + |ucode| <= REGISTERS
    ensures AllFit(Chunks(ucode, offset))
    ensures forall p :: p in Chunks(ucode, offset) ==> p.T4? && 1 <= |p.payload| <= TYPE4_MAX_PAYLOAD
    ensures |Encode(Chunks(ucode, offset))| == offset + (offset + 126) / 127
    decreases offset
  {
    hide Encode, Before;
    if offset == 0 {
      SpliceNothing([], 0);
    } else {
      BeforeIsBoundary(ucode, offset);
      ChunksFit(ucode, Before(offset));
      var p := T4(INST_RAM_BASE + Before(offset), ucode[Before(offset)..offset]);
      EncodeAppend(Chunks(ucode, Before(offset)), [p]);
      EncodeOne(p);
    }
  }

  lemma {:induction false} RegWritesAppend(reg: nat, a: seq<u32>, b: seq<u32>)
    ensures RegWrites(reg, a + b) == RegWrites(reg, a) + RegWrites(reg + |a|, b)
    decreases a
  {
    if a == [] {
      assert a + b == b;
    } else {
      RegWritesAppend(reg + 1, a[1..], b);
      AppendSlices(a, b, 1);
      ConsAppend(RegWrite(reg, a[0]), RegWrites(reg + 1, a[1..]), RegWrites(reg + |a|, b));
    }
  }

  /** A run of register writes is one write per word, to consecutive registers. */
  lemma {:induction false} RegWritesAt(reg: nat, ws: seq<u32>, i: nat)
    requires i < |ws|
    ensures |RegWrites(reg, ws)| == |ws| && RegWrites(reg, ws)[i] == RegWrite(reg + i, ws[i])
    decreases ws
  {
    if |ws| > 1 {
      RegWritesAt(reg + 1, ws[1..], if i == 0 then 0 else i - 1);
    } else {
      assert ws[1..] == [];
    }
  }

  lemma NoWrites(reg: nat)
    ensures RegWrites(reg, []) == []
  {
  }

  lemma {:induction false} ChunksRun(cp: Cp, ucode: seq<u32>, offset: nat)
    requires Boundary(ucode, offset)
    ensures Exec(cp, Chunks(ucode, offset)) == cp.(trace := cp.trace + RegWrites(INST_RAM_BASE, ucode[..offset]))
    decreases offset
  {
    hide Step, Before, RegWrites, Exec;
    if offset == 0 {
      A.ExecNone(cp);
      NoWrites(INST_RAM_BASE);
      assert cp.trace + [] == cp.trace;
    } else {
      var b := Before(offset);
      BeforeIsBoundary(ucode, offset);
      ChunksRun(cp, ucode, b);
      var p := T4(INST_RAM_BASE + b, ucode[b..offset]);
      A.ExecWhen(cp, Chunks(ucode, b), true, p);
      StepChunk(Exec(cp, Chunks(ucode, b)), INST_RAM_BASE + b, ucode[b..offset]);
      RegWritesAppend(INST_RAM_BASE, ucode[..b], ucode[b..offset]);
      JoinSlices(ucode, b, offset);
    }
  }

  lemma StepChunk(cp: Cp, reg: nat, ws: seq<u32>)
    ensures Step(cp, T4(reg, ws)) == cp.(trace := cp.trace + RegWrites(reg, ws))
  {
  }

  /** Chunking preserves meaning: the stream splits into packets no longer than the largest type 4
      packet, stores ucode[i] at INST_RAM_BASE + i for every i, does so with protection off and does nothing
      else, and ends protected. */
  lemma LoadPreservesMeaning(ucode: seq<u32>, cp: Cp, i: nat)
    requires INST_RAM_BASE + |ucode| <= REGISTERS
    ensures Parse(Encode(LoadPackets(ucode))) == Some(LoadPackets(ucode))
    ensures forall p :: p in LoadPackets(ucode) ==> |p.payload| <= TYPE4_MAX_PAYLOAD
    ensures var t := Exec(cp, LoadPackets(ucode));
            && t.prot && t.secure == cp.secure && |t.trace| == |cp.trace| + 1 + |ucode| + 1
            && t.trace[..|cp.trace|] == cp.trace && t.trace[|cp.trace|] == Mode(CP_SET_PROTECTED_MODE, false)
            && (i < |ucode| ==> t.trace[|cp.trace| + 1 + i] == RegWrite(INST_RAM_BASE + i, ucode[i]))
            && t.trace[|t.trace| - 1] == Mode(CP_SET_PROTECTED_MODE, true)
  {
    hide Step, Exec, Encode, Parse, RegWrites, Chunks, LoadPackets, AllFit;
    LoadFits(ucode);
    ParseEncode(LoadPackets(ucode));
    LoadRuns(cp, ucode);
    var writes := RegWrites(INST_RAM_BASE, ucode);
    WritesCount(INST_RAM_BASE, ucode);
    Between(cp.trace, Mode(CP_SET_PROTECTED_MODE, false), writes, Mode(CP_SET_PROTECTED_MODE, true), i);
    if i < |ucode| { RegWritesAt(INST_RAM_BASE, ucode, i); }
  }

  lemma LoadFits(ucode: seq<u32>)
    requires INST_RAM_BASE + |ucode| <= REGISTERS
    ensures AllFit(LoadPackets(ucode)) && forall p :: p in LoadPackets(ucode) ==> |p.payload| <= TYPE4_MAX_PAYLOAD
  {
    var chunks := Chunks(ucode, |ucode|);
    ChunksFit(ucode, |ucode|);
    hide Chunks, Encode;
    FitAppend([A.Protected(0)], chunks);
    FitAppend([A.Protected(0)] + chunks, [A.Protected(1)]);
  }

  lemma LoadRuns(cp: Cp, ucode: seq<u32>)
    ensures Exec(cp, LoadPackets(ucode)) ==
            cp.(prot := true, trace := cp.trace + ([Mode(CP_SET_PROTECTED_MODE, false)]
                                                   + RegWrites(INST_RAM_BASE, ucode)
                                                   + [Mode(CP_SET_PROTECTED_MODE, true)]))
  {
    hide Step, Exec, EventsOf, RegWrites, Chunks;
    A.NothingDone(cp);
    A.ModeEvents(0);
    A.ModeEvents(1);
    var off, on, writes := Mode(CP_SET_PROTECTED_MODE, false), Mode(CP_SET_PROTECTED_MODE, true),
                           RegWrites(INST_RAM_BASE, ucode);
    var chunks := Chunks(ucode, |ucode|);
    var t1 := A.ExecMore(cp, [], [], true, A.Protected(0), off);
    A.NothingFirst([A.Protected(0)]);
    A.NothingFirst([off]);
    A.ExecAppend(cp, [A.Protected(0)], chunks);
    ChunksRun(t1, ucode, |ucode|);
    assert ucode[..|ucode|] == ucode;
    RegroupAll(cp.trace, [off], writes);
    var t := A.ExecMore(cp, [A.Protected(0)] + chunks, [off] + writes, true, A.Protected(1), on);
  }

  lemma Between<T>(before: seq<T>, a: T, s: seq<T>, b: T, i: nat)
    ensures var t := before + ([a] + s + [b]);
            && |t| == |before| + 1 + |s| + 1 && t[..|before|] == before && t[|before|] == a && t[|t| - 1] == b
            && (i < |s| ==> t[|before| + 1 + i] == s[i])
  {
  }

  lemma WritesCount(reg: nat, ws: seq<u32>)
    ensures |RegWrites(reg, ws)| == |ws|
  {
    if ws != [] { RegWritesAt(reg, ws, 0); }
  }

  lemma StartBoundary(ucode: seq<u32>)
    ensures Boundary(ucode, 0) && Chunks(ucode, 0) == []
  {
  }

  lemma Room(ucode: seq<u32>, offset: nat)
    requires Boundary(ucode, offset) && INST_RAM_BASE + |ucode| <= REGISTERS
    ensures |Encode([A.Protected(0)] + Chunks(ucode, offset))| + 2
            <= |ucode| + |ucode| / TYPE4_MAX_PAYLOAD + 1 + 4
  {
    hide Encode;
    ChunksFit(ucode, offset);
    EncodeAppend([A.Protected(0)], Chunks(ucode, offset));
    EncodeOne(A.Protected(0));
    assert (offset + 126) / 127 <= |ucode| / 127 + 1;
  }

  lemma Grows(ucode: seq<u32>, offset: nat, n: nat)
    requires n > 0 && offset + n <= |ucode| && Before(offset + n) == offset
    ensures var p := T4(INST_RAM_BASE + offset, ucode[offset..offset + n]);
            && [A.Protected(0)] + Chunks(ucode, offset) + [p] == [A.Protected(0)] + Chunks(ucode, offset + n)
            && |Encode([A.Protected(0)] + Chunks(ucode, offset + n))|
               == |Encode([A.Protected(0)] + Chunks(ucode, offset))| + 1 + n
  {
    var p := T4(INST_RAM_BASE + offset, ucode[offset..offset + n]);
    EncodeAppend([A.Protected(0)] + Chunks(ucode, offset), [p]);
    EncodeOne(p);
  }

  method WriteLoad(buffer: array<u32>, ucode: seq<u32>) returns (at: nat)
    requires INST_RAM_BASE + |ucode| <= REGISTERS
    requires buffer.Length == |ucode| + |ucode| / TYPE4_MAX_PAYLOAD + 1 + 4
    modifies buffer
    ensures at == |Encode(LoadPackets(ucode))| <= buffer.Length && buffer[..at] == Encode(LoadPackets(ucode))
  {
    hide Encode, Splice, Boundary, Before, Chunks;
    ghost var m, ps: seq<Packet> := buffer[..], [];
    SpliceNothing(m, 0);
    at, ps := Emit(buffer, m, 0, 0, ps, A.Protected(0));
    var offset := 0;
    StartBoundary(ucode);
    assert ps == [A.Protected(0)] + Chunks(ucode, 0);
    while offset < |ucode|
      invariant offset <= |ucode| && Boundary(ucode, offset)
      invariant ps == [A.Protected(0)] + Chunks(ucode, offset)
      invariant at == |Encode(ps)| && at + 2 <= buffer.Length
      invariant buffer[..] == Splice(m, 0, Encode(ps))
    {
      var n := |ucode| - offset;
      if n >= TYPE4_MAX_PAYLOAD { n := TYPE4_MAX_PAYLOAD; }
      NextBoundary(ucode, offset, n);
      Room(ucode, offset + n);
      Grows(ucode, offset, n);
      at, ps := Emit(buffer, m, 0, at, ps, T4(INST_RAM_BASE + offset, ucode[offset..offset + n]));
      offset := offset + n;
    }
    at, ps := Emit(buffer, m, 0, at, ps, A.Protected(1));
    SpliceFront(m, Encode(ps));
  }

  /** The loader's part of the device: the stream and how much of it is used. */
  class Loader {
    var cmds: array?<u32>
    var cmdsSize: nat

    constructor ()
      ensures cmds == null && cmdsSize == 0
    {
      cmds, cmdsSize := null, 0;
    }

    /** Builds the stream once, in size + size / 127 + 1 + 4 dwords. False if there is no memory. */
    method CreateLoadCmds(ucode: seq<u32>, memory: bool) returns (ok: bool)
      requires INST_RAM_BASE + |ucode| <= REGISTERS
      modifies this
      ensures ok == (old(cmds) != null || memory)
      ensures old(cmds) != null || !memory ==> cmds == old(cmds) && cmdsSize == old(cmdsSize)
      ensures old(cmds) == null && memory ==>
        && cmds != null && cmds.Length == |ucode| + |ucode| / TYPE4_MAX_PAYLOAD + 1 + 4
        && cmdsSize == |Encode(LoadPackets(ucode))| <= cmds.Length
        && cmds[..cmdsSize] == Encode(LoadPackets(ucode))
    {
      if cmds != null { return true; }
      if !memory { return false; }
      var buffer := new u32[|ucode| + |ucode| / TYPE4_MAX_PAYLOAD + 1 + 4](_ => 0);
      var at := WriteLoad(buffer, ucode);
      cmds, cmdsSize := buffer, at;
      return true;
    }
  }
}
