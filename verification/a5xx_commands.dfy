/** The a5xx command lists that are wrapped into submissions: context switches and user commands. */
module A5xxCommands {
  import opened Wrappers
  import opened Pm4
  import opened RingSpace
  import opened A5xxStream

  /** Installs a page table and records it in the ring's scratch area; 18 dwords. */
  function TablePackets(ttbr0: u64, id: u32, scratch: u64): seq<Packet> {
    var lo, hi := Lower32(ttbr0), Upper32(ttbr0);
    [T7(CP_SMMU_TABLE_UPDATE, [lo, hi, id]),
     T7(CP_WAIT_FOR_IDLE, []),
     T7(CP_WAIT_FOR_ME, []),
     T4(A5XX_CP_CNTL, [1]),
     T7(CP_MEM_WRITE, [Lower32(scratch), Upper32(scratch), lo, hi, id]),
     T7(CP_WAIT_FOR_IDLE, []),
     T7(CP_WAIT_FOR_ME, []),
     T4(A5XX_CP_CNTL, [0])]
  }

  /** Whether switching a ring from one context's table to another's writes table packets. */
  predicate ChangesTable(active: Option<u64>, table: u64, default: u64) {
    active != Some(table) && table != default
  }

  function SwitchPackets(active: Option<u64>, table: u64, default: u64, id: u32, at: Places): seq<Packet> {
    (if ChangesTable(active, table, default) then TablePackets(table, id, at.scratchTtbr0) else [])
    + [Nop(CONTEXT_TO_MEM_IDENTIFIER)]
    + [Write(at.rbCurrent, id)]
    + [Write(at.globalCurrent, id)]
    + [T4(A5XX_UCHE_INVALIDATE0, [0x12])]
  }

  method PagetableSwitch(cmds: array<u32>, id: u32, scratch: u64, ttbr0: u64, default: u64)
    returns (count: nat)
    requires cmds.Length == 32
    modifies cmds
    ensures count == if ttbr0 == default then 0 else 18
    ensures var ps := if ttbr0 == default then [] else TablePackets(ttbr0, id, scratch);
            |Encode(ps)| == count && cmds[..] == Splice(old(cmds[..]), 0, Encode(ps))
  {
    hide Encode, Splice;
    ghost var m, ps: seq<Packet> := cmds[..], [];
    SpliceNothing(m, 0);
    if ttbr0 == default {
      return 0;
    }
    var lo, hi := Lower32(ttbr0), Upper32(ttbr0);
    count, ps := Emit(cmds, m, 0, 0, ps, T7(CP_SMMU_TABLE_UPDATE, [lo, hi, id]));
    count, ps := Emit(cmds, m, 0, count, ps, T7(CP_WAIT_FOR_IDLE, []));
    count, ps := Emit(cmds, m, 0, count, ps, T7(CP_WAIT_FOR_ME, []));
    count, ps := Emit(cmds, m, 0, count, ps, T4(A5XX_CP_CNTL, [1]));
    count, ps := Emit(cmds, m, 0, count, ps,
                      T7(CP_MEM_WRITE, [Lower32(scratch), Upper32(scratch), lo, hi, id]));
    count, ps := Emit(cmds, m, 0, count, ps, T7(CP_WAIT_FOR_IDLE, []));
    count, ps := Emit(cmds, m, 0, count, ps, T7(CP_WAIT_FOR_ME, []));
    count, ps := Emit(cmds, m, 0, count, ps, T4(A5XX_CP_CNTL, [0]));
    assert ps == TablePackets(ttbr0, id, scratch);
  }

  /** Builds a context switch in a 32-dword array. */
  method SwitchCommands(active: Option<u64>, table: u64, default: u64, id: u32, at: Places)
    returns (cmds: array<u32>, count: nat)
    ensures fresh(cmds) && cmds.Length == 32
    ensures count == |Encode(SwitchPackets(active, table, default, id, at))| <= 32
    ensures cmds[..count] == Encode(SwitchPackets(active, table, default, id, at))
  {
    cmds := new u32[32](_ => 0);
    hide Encode, Splice, TablePackets;
    ghost var m, ps: seq<Packet> := cmds[..], [];
    SpliceNothing(m, 0);
    count := 0;
    if active != Some(table) {
      count := PagetableSwitch(cmds, id, at.scratchTtbr0, table, default);
      ps := if table == default then [] else TablePackets(table, id, at.scratchTtbr0);
    }
    ghost var first := ps;
    count, ps := Emit(cmds, m, 0, count, ps, Nop(CONTEXT_TO_MEM_IDENTIFIER));
    count, ps := Emit(cmds, m, 0, count, ps, Write(at.rbCurrent, id));
    count, ps := Emit(cmds, m, 0, count, ps, Write(at.globalCurrent, id));
    count, ps := Emit(cmds, m, 0, count, ps, T4(A5XX_UCHE_INVALIDATE0, [0x12]));
    SpliceFront(m, Encode(ps));
  }

  /** The table is in force before its record is written, and that is written before the next thing is done. */
  function TableEvents(ttbr0: u64, id: u32, scratch: u64): seq<Event> {
    [TableUpdate(ttbr0, id), Act(CP_WAIT_FOR_IDLE, []), Act(CP_WAIT_FOR_ME, []), RegWrite(A5XX_CP_CNTL, 1),
     MemWrite(scratch, [ttbr0 % 0x1_0000_0000, ttbr0 / 0x1_0000_0000, id]),
     Act(CP_WAIT_FOR_IDLE, []), Act(CP_WAIT_FOR_ME, []), RegWrite(A5XX_CP_CNTL, 0)]
  }

  /** What a context switch does, and in which order. */
  function SwitchEvents(active: Option<u64>, table: u64, default: u64, id: u32, at: Places): seq<Event> {
    (if active != Some(table) && table != default then TableEvents(table, id, at.scratchTtbr0) else [])
    + [Mark(0x2EAD_BEEF)] + [MemWrite(at.rbCurrent, [id])] + [MemWrite(at.globalCurrent, [id])]
    + [RegWrite(A5XX_UCHE_INVALIDATE0, 0x12)]
  }

  /** Packets that set no mode, each with the one thing it does. */
  lemma {:induction false} ExecEach(cp: Cp, ps: seq<Packet>, es: seq<Event>)
    requires |ps| == |es| && forall i :: 0 <= i < |ps| ==> EventsOf(ps[i]) == [es[i]]
    requires forall i :: 0 <= i < |ps| ==>
      !SetsMode(ps[i], CP_SET_PROTECTED_MODE) && !SetsMode(ps[i], CP_SET_SECURE_MODE)
    ensures Exec(cp, ps) == cp.(trace := cp.trace + es)
  {
    hide Step, Exec, EventsOf;
    var n := |ps| - 1;
    if n < 0 {
      NothingDone(cp);
    } else {
      ExecEach(cp, ps[..n], es[..n]);
      assert ps == ps[..n] + [ps[n]] && es == es[..n] + [es[n]];
      var t := ExecMore(cp, ps[..n], es[..n], true, ps[n], es[n]);
    }
  }

  lemma TableUpdateEvents(ttbr0: u64, id: u32)
    ensures EventsOf(T7(CP_SMMU_TABLE_UPDATE, [Lower32(ttbr0), Upper32(ttbr0), id])) == [TableUpdate(ttbr0, id)]
  {
    SplitJoin64(ttbr0);
  }

  lemma ScratchEvents(addr: u64, lo: u32, hi: u32, id: u32)
    ensures EventsOf(T7(CP_MEM_WRITE, [Lower32(addr), Upper32(addr), lo, hi, id])) == [MemWrite(addr, [lo, hi, id])]
  {
    SplitJoin64(addr);
  }

  lemma TableRuns(cp: Cp, ttbr0: u64, id: u32, scratch: u64)
    ensures Exec(cp, TablePackets(ttbr0, id, scratch)) ==
            cp.(trace := cp.trace + TableEvents(ttbr0, id, scratch))
  {
    hide Step, Exec, EventsOf;
    TableUpdateEvents(ttbr0, id);
    PlainEvents(CP_WAIT_FOR_IDLE, []);
    PlainEvents(CP_WAIT_FOR_ME, []);
    RegisterEvents(A5XX_CP_CNTL, 1);
    ScratchEvents(scratch, Lower32(ttbr0), Upper32(ttbr0), id);
    RegisterEvents(A5XX_CP_CNTL, 0);
    ExecEach(cp, TablePackets(ttbr0, id, scratch), TableEvents(ttbr0, id, scratch));
  }

  /** A context switch installs the table exactly when it differs from the active one and is not the
      default, records it before protection of the scratch area returns, and marks the new context. */
  lemma SwitchRuns(cp: Cp, active: Option<u64>, table: u64, default: u64, id: u32, at: Places)
    ensures Exec(cp, SwitchPackets(active, table, default, id, at)) ==
            cp.(trace := cp.trace + SwitchEvents(active, table, default, id, at))
  {
    hide Step, Exec, EventsOf, TablePackets, TableEvents, Write;
    var changes := active != Some(table) && table != default;
    var p0 := if changes then TablePackets(table, id, at.scratchTtbr0) else [];
    var e0 := if changes then TableEvents(table, id, at.scratchTtbr0) else [];
    NothingDone(cp);
    TableRuns(cp, table, id, at.scratchTtbr0);
    assert Exec(cp, p0) == cp.(trace := cp.trace + e0);
    MarkEvents(CONTEXT_TO_MEM_IDENTIFIER);
    var t0 := ExecMore(cp, p0, e0, true, Nop(CONTEXT_TO_MEM_IDENTIFIER), Mark(0x2EAD_BEEF));
    var p1, e1 := p0 + [Nop(CONTEXT_TO_MEM_IDENTIFIER)], e0 + [Mark(0x2EAD_BEEF)];
    WriteEvents(at.rbCurrent, id);
    WriteIsModeless(at.rbCurrent, id);
    var t1 := ExecMore(cp, p1, e1, true, Write(at.rbCurrent, id), MemWrite(at.rbCurrent, [id]));
    var p2, e2 := p1 + [Write(at.rbCurrent, id)], e1 + [MemWrite(at.rbCurrent, [id])];
    WriteEvents(at.globalCurrent, id);
    WriteIsModeless(at.globalCurrent, id);
    var t2 := ExecMore(cp, p2, e2, true, Write(at.globalCurrent, id), MemWrite(at.globalCurrent, [id]));
    RegisterEvents(A5XX_UCHE_INVALIDATE0, 0x12);
    var t3 := ExecMore(cp, p2 + [Write(at.globalCurrent, id)], e2 + [MemWrite(at.globalCurrent, [id])], true,
                       T4(A5XX_UCHE_INVALIDATE0, [0x12]), RegWrite(A5XX_UCHE_INVALIDATE0, 0x12));
  }

  lemma ExecSilent(cp: Cp, ps: seq<Packet>, ws: seq<u32>)
    requires |ws| != 1
    ensures Exec(cp, ps + [T7(CP_NOP, ws)]) == Exec(cp, ps)
  {
    hide Step, Exec;
    ExecWhen(cp, ps, true, T7(CP_NOP, ws));
    StepNop(Exec(cp, ps), ws);
  }

  /** An indirect buffer of a user command: address and size in bytes. */
  datatype IbNode = IbNode(addr: u64, size: u64, skip: bool, preamble: bool)

  datatype Command = Command(
    ibs: seq<IbNode>,
    skipAll: bool,
    preamble: bool,
    kernelProfile: Option<(u64, u64)>,
    userProfile: Option<(u64, u64)>,
    counter: u32)

  function SizeField(size: u64): u32 { (size / 4) % 0x10_0000 }

  predicate Skipped(ib: IbNode, preamble: bool) { ib.skip || (ib.preamble && !preamble) }

  function IbPacket(ib: IbNode): Packet { Ib(ib.addr, SizeField(ib.size)) }

  /** A skipped buffer is the payload of a NOP. */
  function NodePacket(ib: IbNode, preamble: bool): Packet {
    if Skipped(ib, preamble) then T7(CP_NOP, Words(IbPacket(ib))) else IbPacket(ib)
  }

  function NodePackets(ibs: seq<IbNode>, preamble: bool): seq<Packet> {
    if ibs == [] then [] else NodePackets(ibs[..|ibs| - 1], preamble) + [NodePacket(ibs[|ibs| - 1], preamble)]
  }

  function Listed(c: Command): seq<IbNode> { if c.skipAll then [] else c.ibs }

  function KernelPacket(counter: u32, addr: u64): Packet {
    T7(CP_REG_TO_MEM, [counter, Lower32(addr), Upper32(addr)])
  }

  function First(p: Option<(u64, u64)>): u64 { match p case None => 0 case Some(a) => a.0 }
  function Second(p: Option<(u64, u64)>): u64 { match p case None => 0 case Some(a) => a.1 }

  function FrontPackets(c: Command): seq<Packet> {
    [Nop(START_IB_IDENTIFIER)]
    + When(c.kernelProfile.Some?, KernelPacket(c.counter, First(c.kernelProfile)))
    + When(c.userProfile.Some?, Ib(First(c.userProfile), 4))
  }

  function BackPackets(c: Command): seq<Packet> {
    [T7(CP_SET_RENDER_MODE, [0, 0, 0, 0, 0])]
    + [T7(CP_YIELD_ENABLE, [1])]
    + When(c.kernelProfile.Some?, KernelPacket(c.counter, Second(c.kernelProfile)))
    + When(c.userProfile.Some?, Ib(Second(c.userProfile), 4))
    + [Nop(END_IB_IDENTIFIER)]
  }

  function CommandPackets(c: Command): seq<Packet> {
    FrontPackets(c) + NodePackets(Listed(c), c.preamble) + BackPackets(c)
  }

  const COMMAND_DWORDS := 32

  /** Builds a user command in the 32 + 5n dwords allocated for it. */
  method BuildCommand(c: Command) returns (cmds: array<u32>, index: nat)
    ensures fresh(cmds) && cmds.Length == COMMAND_DWORDS + |Listed(c)| * 5
    ensures index == |Encode(CommandPackets(c))| <= cmds.Length
    ensures cmds[..index] == Encode(CommandPackets(c))
  {
    hide Encode, Splice, FrontPackets, BackPackets;
    var ibs := Listed(c);
    cmds := new u32[COMMAND_DWORDS + |ibs| * 5](_ => 0);
    ghost var m := cmds[..];
    index := EmitFront(cmds, c);
    ghost var front, ps := FrontPackets(c), FrontPackets(c);
    assert front + NodePackets([], c.preamble) == front;
    for i := 0 to |ibs|
      invariant ps == front + NodePackets(ibs[..i], c.preamble)
      invariant index == |Encode(ps)| <= 10 + 5 * i
      invariant cmds[..] == Splice(m, 0, Encode(ps))
    {
      ghost var before := ps;
      index, ps := EmitNode(cmds, m, index, ps, ibs[i], c.preamble);
      assert ibs[..i + 1][..i] == ibs[..i];
      assert front + NodePackets(ibs[..i], c.preamble) + [NodePacket(ibs[i], c.preamble)]
          == front + (NodePackets(ibs[..i], c.preamble) + [NodePacket(ibs[i], c.preamble)]);
    }
    assert ibs[..|ibs|] == ibs;
    index := EmitBack(cmds, m, index, ps, c);
    SpliceFront(m, Encode(CommandPackets(c)));
  }

  method EmitFront(cmds: array<u32>, c: Command) returns (index: nat)
    requires cmds.Length >= 10
    modifies cmds
    ensures index == |Encode(FrontPackets(c))| <= 10
    ensures cmds[..] == Splice(old(cmds[..]), 0, Encode(FrontPackets(c)))
  {
    hide Encode, Splice;
    ghost var m, ps: seq<Packet> := cmds[..], [];
    SpliceNothing(m, 0);
    index, ps := Emit(cmds, m, 0, 0, ps, Nop(START_IB_IDENTIFIER));
    assert ps == [Nop(START_IB_IDENTIFIER)];
    index, ps := EmitWhen(cmds, m, 0, index, ps, c.kernelProfile.Some?,
                          KernelPacket(c.counter, First(c.kernelProfile)));
    index, ps := EmitWhen(cmds, m, 0, index, ps, c.userProfile.Some?, Ib(First(c.userProfile), 4));
  }

  /** A NOP header in front of a buffer that is to be skipped, and then the buffer's packet. */
  method EmitNode(cmds: array<u32>, ghost m: seq<u32>, at: nat, ghost ps: seq<Packet>, ib: IbNode, preamble: bool)
    returns (index: nat, ghost qs: seq<Packet>)
    requires at == |Encode(ps)| && at + 5 <= cmds.Length == |m| && cmds[..] == Splice(m, 0, Encode(ps))
    modifies cmds
    ensures qs == ps + [NodePacket(ib, preamble)] && index == |Encode(qs)| <= at + 5
    ensures cmds[..] == Splice(m, 0, Encode(qs))
  {
    hide Encode, Splice;
    qs := ps + [NodePacket(ib, preamble)];
    EncodeAppend(ps, [NodePacket(ib, preamble)]);
    EncodeOne(NodePacket(ib, preamble));
    ghost var done := Encode(ps);
    index := at;
    if Skipped(ib, preamble) {
      index := Copy(cmds, index, [Type7(CP_NOP, 4)]);
      SpliceSplice(m, 0, done, [Type7(CP_NOP, 4)]);
      done := done + [Type7(CP_NOP, 4)];
    }
    index := Copy(cmds, index, Words(IbPacket(ib)));
    SpliceSplice(m, 0, done, Words(IbPacket(ib)));
    assert done + Words(IbPacket(ib)) == Encode(ps) + Words(NodePacket(ib, preamble));
  }

  method EmitBack(cmds: array<u32>, ghost m: seq<u32>, at: nat, ghost ps: seq<Packet>, c: Command)
    returns (index: nat)
    requires at == |Encode(ps)| && at + 18 <= cmds.Length == |m| && cmds[..] == Splice(m, 0, Encode(ps))
    modifies cmds
    ensures index == |Encode(ps + BackPackets(c))| <= at + 18
    ensures cmds[..] == Splice(m, 0, Encode(ps + BackPackets(c)))
  {
    hide Encode, Splice;
    ghost var m1, qs: seq<Packet> := cmds[..], [];
    SpliceNothing(m1, at);
    index, qs := Emit(cmds, m1, at, at, qs, T7(CP_SET_RENDER_MODE, [0, 0, 0, 0, 0]));
    assert qs == [T7(CP_SET_RENDER_MODE, [0, 0, 0, 0, 0])];
    index, qs := Emit(cmds, m1, at, index, qs, T7(CP_YIELD_ENABLE, [1]));
    index, qs := EmitWhen(cmds, m1, at, index, qs, c.kernelProfile.Some?,
                          KernelPacket(c.counter, Second(c.kernelProfile)));
    index, qs := EmitWhen(cmds, m1, at, index, qs, c.userProfile.Some?, Ib(Second(c.userProfile), 4));
    index, qs := Emit(cmds, m1, at, index, qs, Nop(END_IB_IDENTIFIER));
    EncodeAppend(ps, BackPackets(c));
    SpliceSplice(m, 0, Encode(ps), Encode(BackPackets(c)));
  }

  /** The buffers a command list asks to run, in order: not those that are to be skipped, and those of a preamble
      only if the command asks for it. */
  function Buffers(ibs: seq<IbNode>, preamble: bool): seq<Event> {
    if ibs == [] then []
    else
      var last := ibs[|ibs| - 1];
      Buffers(ibs[..|ibs| - 1], preamble)
      + Do(!last.skip && (!last.preamble || preamble), IndirectBuffer(last.addr, (last.size / 4) % 0x10_0000))
  }

  /** Their places in the list. */
  function RunAt(ibs: seq<IbNode>, preamble: bool): seq<nat> {
    if ibs == [] then []
    else
      var last := ibs[|ibs| - 1];
      RunAt(ibs[..|ibs| - 1], preamble) + if !last.skip && (!last.preamble || preamble) then [|ibs| - 1] else []
  }

  lemma {:induction false} RunAtThose(ibs: seq<IbNode>, preamble: bool)
    ensures var at := RunAt(ibs, preamble);
            && (forall k :: 0 <= k < |at| ==> at[k] < |ibs|)
            && (forall j, k :: 0 <= j < k < |at| ==> at[j] < at[k])
            && (forall i :: 0 <= i < |ibs| ==> (i in at <==> !ibs[i].skip && (!ibs[i].preamble || preamble)))
  {
    if ibs != [] {
      var n := |ibs| - 1;
      RunAtThose(ibs[..n], preamble);
      var before, at := RunAt(ibs[..n], preamble), RunAt(ibs, preamble);
      forall i | 0 <= i < |ibs| ensures i in at <==> !ibs[i].skip && (!ibs[i].preamble || preamble) {
        if i < n { assert ibs[..n][i] == ibs[i]; } else { assert n !in before; }
      }
    }
  }

  lemma {:induction false} BuffersAt(ibs: seq<IbNode>, preamble: bool, k: nat)
    requires k < |RunAt(ibs, preamble)|
    ensures |Buffers(ibs, preamble)| == |RunAt(ibs, preamble)| && RunAt(ibs, preamble)[k] < |ibs|
    ensures var ib := ibs[RunAt(ibs, preamble)[k]];
            Buffers(ibs, preamble)[k] == IndirectBuffer(ib.addr, (ib.size / 4) % 0x10_0000)
    decreases |ibs|
  {
    var init := ibs[..|ibs| - 1];
    BuffersCount(init, preamble);
    if k < |RunAt(init, preamble)| { BuffersAt(init, preamble, k); }
  }

  lemma {:induction false} BuffersCount(ibs: seq<IbNode>, preamble: bool)
    ensures |Buffers(ibs, preamble)| == |RunAt(ibs, preamble)|
  {
    if ibs != [] { BuffersCount(ibs[..|ibs| - 1], preamble); }
  }

  /** `es` runs the buffers of a command that are at `at`, and those are the ones to run: the order is that of the list,
      the addresses are whole, and the sizes are in dwords, of which the packet holds the lower 20 bits. */
  ghost predicate RunsListed(c: Command, es: seq<Event>, at: seq<nat>) {
    && |es| == |at|
    && (forall k :: 0 <= k < |at| ==> at[k] < |c.ibs|)
    && (forall j, k :: 0 <= j < k < |at| ==> at[j] < at[k])
    && (forall i :: 0 <= i < |c.ibs| ==>
          (i in at <==> !c.skipAll && !c.ibs[i].skip && (!c.ibs[i].preamble || c.preamble)))
    && (forall k :: 0 <= k < |es| ==>
          var ib := c.ibs[at[k]];
          && es[k].IndirectBuffer? && es[k].addr == ib.addr
          && 4 * es[k].size <= ib.size % 0x40_0000 < 4 * es[k].size + 4
          && (ib.size % 4 == 0 && ib.size < 0x40_0000 ==> 4 * es[k].size == ib.size))
  }

  lemma SizeInDwords(size: nat)
    ensures var n := (size / 4) % 0x10_0000; 4 * n <= size % 0x40_0000 < 4 * n + 4
  {
    var q := size / 0x40_0000;
    var r := size % 0x40_0000;
    assert size / 4 == q * 0x10_0000 + r / 4;
  }

  lemma ListedBuffersRun(c: Command)
    ensures var ibs := if c.skipAll then [] else c.ibs;
            RunsListed(c, Buffers(ibs, c.preamble), RunAt(ibs, c.preamble))
  {
    var ibs := if c.skipAll then [] else c.ibs;
    var es, at := Buffers(ibs, c.preamble), RunAt(ibs, c.preamble);
    RunAtThose(ibs, c.preamble);
    BuffersCount(ibs, c.preamble);
    hide Buffers, RunAt;
    forall k | 0 <= k < |es|
      ensures var ib := c.ibs[at[k]];
              && es[k].IndirectBuffer? && es[k].addr == ib.addr
              && 4 * es[k].size <= ib.size % 0x40_0000 < 4 * es[k].size + 4
    {
      BuffersAt(ibs, c.preamble, k);
      SizeInDwords(c.ibs[at[k]].size);
    }
  }

  lemma {:induction false} NodesRun(cp: Cp, ibs: seq<IbNode>, preamble: bool)
    ensures Exec(cp, NodePackets(ibs, preamble)) == cp.(trace := cp.trace + Buffers(ibs, preamble))
  {
    hide Step, Exec, EventsOf;
    NothingDone(cp);
    if ibs != [] {
      var last, init := ibs[|ibs| - 1], ibs[..|ibs| - 1];
      NodesRun(cp, init, preamble);
      var size := (last.size / 4) % 0x10_0000;
      if !last.skip && (!last.preamble || preamble) {
        IbEvents(last.addr, size);
        var t := ExecMore(cp, NodePackets(init, preamble), Buffers(init, preamble), true, Ib(last.addr, size),
                          IndirectBuffer(last.addr, size));
      } else {
        ExecSilent(cp, NodePackets(init, preamble), Words(Ib(last.addr, size)));
        NothingMore(Buffers(init, preamble));
      }
    }
  }

  lemma NothingMore<T>(xs: seq<T>)
    ensures xs + [] == xs
  {
  }

  /** Everything a user command does before its buffers, and after them. */
  function FrontEvents(c: Command): seq<Event> {
    [Mark(0x2EAD_EABE)]
    + (match c.kernelProfile case None => [] case Some(p) => [RegToMem(c.counter, p.0)])
    + (match c.userProfile case None => [] case Some(p) => [IndirectBuffer(p.0, 4)])
  }

  function BackEvents(c: Command): seq<Event> {
    [Act(CP_SET_RENDER_MODE, [0, 0, 0, 0, 0])]
    + [Act(CP_YIELD_ENABLE, [1])]
    + (match c.kernelProfile case None => [] case Some(p) => [RegToMem(c.counter, p.1)])
    + (match c.userProfile case None => [] case Some(p) => [IndirectBuffer(p.1, 4)])
    + [Mark(0x2ABE_DEAD)]
  }

  function CommandEvents(c: Command): seq<Event> {
    FrontEvents(c) + Buffers(if c.skipAll then [] else c.ibs, c.preamble) + BackEvents(c)
  }

  lemma KernelEvents(counter: u32, addr: u64)
    ensures EventsOf(KernelPacket(counter, addr)) == [RegToMem(counter, addr)]
  {
    SplitJoin64(addr);
  }

  lemma ProfilesRun(cp: Cp, ps: seq<Packet>, es: seq<Event>, c: Command, kernel: u64, user: u64)
    requires Exec(cp, ps) == cp.(trace := cp.trace + es)
    ensures Exec(cp, ps + When(c.kernelProfile.Some?, KernelPacket(c.counter, kernel))
                        + When(c.userProfile.Some?, Ib(user, 4))) ==
            cp.(trace := cp.trace + (es + Do(c.kernelProfile.Some?, RegToMem(c.counter, kernel))
                                        + Do(c.userProfile.Some?, IndirectBuffer(user, 4))))
  {
    hide Step, Exec, EventsOf;
    KernelEvents(c.counter, kernel);
    IbEvents(user, 4);
    var t1 := ExecMore(cp, ps, es, c.kernelProfile.Some?, KernelPacket(c.counter, kernel), RegToMem(c.counter, kernel));
    var t2 := ExecMore(cp, ps + When(c.kernelProfile.Some?, KernelPacket(c.counter, kernel)),
                       es + Do(c.kernelProfile.Some?, RegToMem(c.counter, kernel)),
                       c.userProfile.Some?, Ib(user, 4), IndirectBuffer(user, 4));
  }

  lemma CommandRuns(cp: Cp, c: Command)
    ensures Exec(cp, CommandPackets(c)) == cp.(trace := cp.trace + CommandEvents(c))
  {
    hide Step, Exec, FrontPackets, BackPackets, NodePackets, FrontEvents, BackEvents, Buffers;
    var nodes, buffers := NodePackets(Listed(c), c.preamble), Buffers(Listed(c), c.preamble);
    FrontRuns(cp, c);
    var c1 := Exec(cp, FrontPackets(c));
    NodesRun(c1, Listed(c), c.preamble);
    var c2 := Exec(c1, nodes);
    BackRuns(c2, c);
    ExecAppend(cp, FrontPackets(c), nodes);
    ExecAppend(cp, FrontPackets(c) + nodes, BackPackets(c));
    Regroup(cp.trace, FrontEvents(c), buffers, BackEvents(c));
  }

  lemma Regroup<T>(t: seq<T>, a: seq<T>, b: seq<T>, c: seq<T>)
    ensures t + a + b + c == t + (a + b + c)
  {
  }

  lemma FrontRuns(cp: Cp, c: Command)
    ensures Exec(cp, FrontPackets(c)) == cp.(trace := cp.trace + FrontEvents(c))
  {
    hide Step, Exec, Ib, KernelPacket;
    var t := MarkFirst(cp, START_IB_IDENTIFIER);
    ProfilesRun(cp, [Nop(START_IB_IDENTIFIER)], [Mark(0x2EAD_EABE)], c, First(c.kernelProfile), First(c.userProfile));
  }

  lemma BackRuns(cp: Cp, c: Command)
    ensures Exec(cp, BackPackets(c)) == cp.(trace := cp.trace + BackEvents(c))
  {
    hide Step, Exec, EventsOf, Ib, KernelPacket;
    var mode, yielding := T7(CP_SET_RENDER_MODE, [0, 0, 0, 0, 0]), T7(CP_YIELD_ENABLE, [1]);
    var e1, e2 := Act(CP_SET_RENDER_MODE, [0, 0, 0, 0, 0]), Act(CP_YIELD_ENABLE, [1]);
    PlainEvents(CP_SET_RENDER_MODE, [0, 0, 0, 0, 0]);
    PlainEvents(CP_YIELD_ENABLE, [1]);
    ExecEach(cp, [mode, yielding], [e1, e2]);
    assert [mode] + [yielding] == [mode, yielding] && [e1] + [e2] == [e1, e2];
    ProfilesRun(cp, [mode] + [yielding], [e1] + [e2], c, Second(c.kernelProfile), Second(c.userProfile));
    var body := [mode] + [yielding] + When(c.kernelProfile.Some?, KernelPacket(c.counter, Second(c.kernelProfile)))
                + When(c.userProfile.Some?, Ib(Second(c.userProfile), 4));
    MarkEvents(END_IB_IDENTIFIER);
    var t := ExecMore(cp, body, [e1] + [e2] + Do(c.kernelProfile.Some?, RegToMem(c.counter, Second(c.kernelProfile)))
                                + Do(c.userProfile.Some?, IndirectBuffer(Second(c.userProfile), 4)),
                      true, Nop(END_IB_IDENTIFIER), Mark(0x2ABE_DEAD));
  }

  lemma {:induction false} NodesFit(ibs: seq<IbNode>, preamble: bool)
    ensures AllFit(NodePackets(ibs, preamble))
  {
    if ibs != [] {
      NodesFit(ibs[..|ibs| - 1], preamble);
    }
  }

  lemma CommandFits(c: Command)
    ensures AllFit(CommandPackets(c))
  {
    NodesFit(Listed(c), c.preamble);
  }

  /** The submit-command round trip. The words that reach the ring for a user command split into whole
      packets again, and what those packets do between the submission's own events is to run exactly
      the buffers that are not skipped, in list order, with their addresses and sizes; a skip NOP
      swallows its one buffer and nothing else. Whatever its flags, it ends protected and unsecured. */
  lemma SubmitCommandRoundTrip(s: Submission, c: Command)
    ensures Parse(SubmissionWords(s, Encode(CommandPackets(c)))) == Some(SubmissionPackets(s, CommandPackets(c)))
    ensures Exec(Cp(true, false, []), SubmissionPackets(s, CommandPackets(c))) ==
            Cp(true, false, HeadEvents(s) + CommandEvents(c) + TailEvents(s))
    ensures var ibs := if c.skipAll then [] else c.ibs;
            RunsListed(c, Buffers(ibs, c.preamble), RunAt(ibs, c.preamble))
  {
    ListedBuffersRun(c);
    hide RunsListed, Buffers, RunAt;
    hide SubmissionWords, SubmissionPackets, CommandPackets, HeadEvents, TailEvents, CommandEvents, Exec, Encode, Parse;
    CommandFits(c);
    ParseEncode(CommandPackets(c));
    SubmissionIsWhole(s, Encode(CommandPackets(c)));
    SubmissionRuns(s, CommandPackets(c));
    CommandRuns(Cp(!s.notProtected, s.secure, HeadEvents(s)), c);
  }

  /** The same for the internal submission that switches a ring to another context. */
  lemma SubmitSwitchRoundTrip(s: Submission, active: Option<u64>, table: u64, default: u64, id: u32)
    ensures var ps := SwitchPackets(active, table, default, id, s.at);
            && Parse(SubmissionWords(s, Encode(ps))) == Some(SubmissionPackets(s, ps))
            && Exec(Cp(true, false, []), SubmissionPackets(s, ps)) ==
               Cp(true, false, HeadEvents(s) + SwitchEvents(active, table, default, id, s.at) + TailEvents(s))
  {
    var ps := SwitchPackets(active, table, default, id, s.at);
    SwitchFits(active, table, default, id, s.at);
    hide SubmissionWords, SubmissionPackets, SwitchPackets, HeadEvents, TailEvents, SwitchEvents, Exec, Encode, Parse;
    ParseEncode(ps);
    SubmissionIsWhole(s, Encode(ps));
    SubmissionRuns(s, ps);
    SwitchRuns(Cp(!s.notProtected, s.secure, HeadEvents(s)), active, table, default, id, s.at);
  }

  lemma SwitchFits(active: Option<u64>, table: u64, default: u64, id: u32, at: Places)
    ensures AllFit(SwitchPackets(active, table, default, id, at))
  {
    assert AllFit(TablePackets(table, id, at.scratchTtbr0));
  }
}
