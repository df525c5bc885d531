/** The a3xx context switch, with its stall of the bus interface, and the a3xx user command. */
module A3xxCommands {
  import opened Wrappers
  import opened Pm4
  import opened RingSpace
  import opened A3xxStream
  import A = A5xxStream
  import C = A5xxCommands

  function WaitReg(addr: u32, value: u32, mask: u32): Packet { T3(CP_WAIT_REG_EQ, [addr, value, mask, 0xF]) }

  function LockPackets(): seq<Packet> {
    [WaitReg(A3XX_CP_WFI_PEND_CTR, 1, 0xFFFF_FFFF),
     T3(CP_REG_RMW, [HALT_CTRL0, NOT_HALT, 1]),
     WaitReg(HALT_CTRL1, 1, 0xFFFF_FFFF)]
  }

  function TablePacket(ttbr0: u64): Packet {
    T3(CP_REG_WR_NO_CTXT, [TTBR0_REG, Lower32(ttbr0), Upper32(ttbr0)])
  }

  function UnlockPackets(): seq<Packet> { [T3(CP_REG_RMW, [HALT_CTRL0, NOT_HALT, 0]), Me()] }

  function FlushPackets(): seq<Packet> {
    [T3(CP_REG_WR_NO_CTXT, [TLBIALL_REG, 1]),
     T3(CP_REG_WR_NO_CTXT, [TLBSYNC_REG, 0]),
     WaitReg(TLBSTATUS_REG, 0, 1)]
  }

  /** Stalls prefetch and the bus, installs the table, and flushes the translations; 50 dwords. */
  function TablePackets(ttbr0: u64, setstate: u32): seq<Packet> {
    [Me(), Ib(setstate, 2), Idle(), Me()]
    + LockPackets()
    + [TablePacket(ttbr0)]
    + UnlockPackets()
    + FlushPackets()
    + [Me(), Idle(), T3(CP_INVALIDATE_STATE, [0x7_FFFF])]
  }

  function SwitchPackets(active: Option<u64>, table: u64, default: u64, id: u32, at: Places): seq<Packet> {
    (if C.ChangesTable(active, table, default) then TablePackets(table, at.setstate) else [])
    + [Nop(A.CONTEXT_TO_MEM_IDENTIFIER)]
    + [Write(at.rbCurrent, id)]
    + [Write(at.globalCurrent, id)]
    + [T0(A3XX_UCHE_CACHE_INVALIDATE0_REG, [0, 0x9000_0000])]
  }

  /** Appends the bus stall. */
  method VbifLock(mem: array<u32>, ghost m: seq<u32>, at: nat, ghost ps: seq<Packet>)
    returns (end: nat, ghost qs: seq<Packet>)
    requires at == |Encode(ps)| && at + 14 <= mem.Length == |m| && mem[..] == Splice(m, 0, Encode(ps))
    modifies mem
    ensures qs == ps + LockPackets() && end == at + 14 == |Encode(qs)| && mem[..] == Splice(m, 0, Encode(qs))
  {
    hide Encode, Splice;
    end, qs := Emit(mem, m, 0, at, ps, WaitReg(A3XX_CP_WFI_PEND_CTR, 1, 0xFFFF_FFFF));
    end, qs := Emit(mem, m, 0, end, qs, T3(CP_REG_RMW, [HALT_CTRL0, NOT_HALT, 1]));
    end, qs := Emit(mem, m, 0, end, qs, WaitReg(HALT_CTRL1, 1, 0xFFFF_FFFF));
    assert qs == ps + LockPackets();
  }

  method VbifUnlock(mem: array<u32>, ghost m: seq<u32>, at: nat, ghost ps: seq<Packet>)
    returns (end: nat, ghost qs: seq<Packet>)
    requires at == |Encode(ps)| && at + 6 <= mem.Length == |m| && mem[..] == Splice(m, 0, Encode(ps))
    modifies mem
    ensures qs == ps + UnlockPackets() && end == at + 6 == |Encode(qs)| && mem[..] == Splice(m, 0, Encode(qs))
  {
    hide Encode, Splice;
    end, qs := Emit(mem, m, 0, at, ps, T3(CP_REG_RMW, [HALT_CTRL0, NOT_HALT, 0]));
    end, qs := Emit(mem, m, 0, end, qs, Me());
    assert qs == ps + UnlockPackets();
  }

  /** Appends the flush of all translations and the wait for it. */
  method TlbInvalidateAll(mem: array<u32>, ghost m: seq<u32>, at: nat, ghost ps: seq<Packet>)
    returns (end: nat, ghost qs: seq<Packet>)
    requires at == |Encode(ps)| && at + 11 <= mem.Length == |m| && mem[..] == Splice(m, 0, Encode(ps))
    modifies mem
    ensures qs == ps + FlushPackets() && end == at + 11 == |Encode(qs)| && mem[..] == Splice(m, 0, Encode(qs))
  {
    hide Encode, Splice;
    end, qs := Emit(mem, m, 0, at, ps, T3(CP_REG_WR_NO_CTXT, [TLBIALL_REG, 1]));
    end, qs := Emit(mem, m, 0, end, qs, T3(CP_REG_WR_NO_CTXT, [TLBSYNC_REG, 0]));
    end, qs := Emit(mem, m, 0, end, qs, WaitReg(TLBSTATUS_REG, 0, 1));
    assert qs == ps + FlushPackets();
  }

  method PagetableSwitch(cmds: array<u32>, ttbr0: u64, default: u64, setstate: u32) returns (count: nat)
    requires cmds.Length == 64
    modifies cmds
    ensures count == if ttbr0 == default then 0 else 50
    ensures var ps := if ttbr0 == default then [] else TablePackets(ttbr0, setstate);
            |Encode(ps)| == count && cmds[..] == Splice(old(cmds[..]), 0, Encode(ps))
  {
    hide Encode, Splice, LockPackets, UnlockPackets, FlushPackets;
    ghost var m, ps: seq<Packet> := cmds[..], [];
    SpliceNothing(m, 0);
    if ttbr0 == default { return 0; }
    count, ps := Emit(cmds, m, 0, 0, ps, Me());
    count, ps := Emit(cmds, m, 0, count, ps, Ib(setstate, 2));
    count, ps := Emit(cmds, m, 0, count, ps, Idle());
    count, ps := Emit(cmds, m, 0, count, ps, Me());
    assert ps == [Me(), Ib(setstate, 2), Idle(), Me()];
    count, ps := VbifLock(cmds, m, count, ps);
    count, ps := Emit(cmds, m, 0, count, ps, TablePacket(ttbr0));
    count, ps := VbifUnlock(cmds, m, count, ps);
    count, ps := TlbInvalidateAll(cmds, m, count, ps);
    ghost var body := ps;
    count, ps := Emit(cmds, m, 0, count, ps, Me());
    count, ps := Emit(cmds, m, 0, count, ps, Idle());
    count, ps := Emit(cmds, m, 0, count, ps, T3(CP_INVALIDATE_STATE, [0x7_FFFF]));
    assert ps == body + [Me(), Idle(), T3(CP_INVALIDATE_STATE, [0x7_FFFF])];
  }

  lemma OneReg(reg: nat, a: u32)
    ensures RegWrites(reg, [a]) == [RegWrite(reg, a)]
  {
    assert [a][1..] == [];
  }

  lemma TwoRegs(reg: nat, a: u32, b: u32)
    ensures RegWrites(reg, [a, b]) == [RegWrite(reg, a), RegWrite(reg + 1, b)]
  {
    assert [a, b][1..] == [b];
    OneReg(reg + 1, b);
  }

  lemma RegEvents(reg: u32, a: u32)
    ensures EventsOf(T3(CP_REG_WR_NO_CTXT, [reg, a])) == [RegWrite(reg, a)]
  {
    assert [reg, a][1..] == [a];
    OneReg(reg, a);
  }

  lemma WaitEvents(addr: u32, value: u32, mask: u32)
    ensures EventsOf(WaitReg(addr, value, mask)) == [RegWait(addr, value, mask)]
  {
  }

  lemma ModifyEvents(reg: u32, kept: u32, added: u32)
    ensures EventsOf(T3(CP_REG_RMW, [reg, kept, added])) == [RegModify(reg, kept, added)]
  {
  }

  /** Prefetch stalls on a buffer of NOPs; then the bus is halted, and seen to be. */
  function StallEvents(setstate: u32): seq<Event> {
    [Act(CP_WAIT_FOR_ME, [0]), IndirectBuffer(setstate, 2), Act(CP_WAIT_FOR_IDLE, [0]), Act(CP_WAIT_FOR_ME, [0]),
     RegWait(A3XX_CP_WFI_PEND_CTR, 1, 0xFFFF_FFFF), RegModify(HALT_CTRL0, 0xFFFF_FFFE, 1),
     RegWait(HALT_CTRL1, 1, 0xFFFF_FFFF)]
  }

  /** The bus is released, all translations are flushed, and the flush is seen to be over. */
  function ReleaseEvents(): seq<Event> {
    [RegModify(HALT_CTRL0, 0xFFFF_FFFE, 0), Act(CP_WAIT_FOR_ME, [0]),
     RegWrite(TLBIALL_REG, 1), RegWrite(TLBSYNC_REG, 0), RegWait(TLBSTATUS_REG, 0, 1),
     Act(CP_WAIT_FOR_ME, [0]), Act(CP_WAIT_FOR_IDLE, [0]), Act(CP_INVALIDATE_STATE, [0x7_FFFF])]
  }

  /** The table is written while the bus is halted. */
  function TableEvents(ttbr0: u64, setstate: u32): seq<Event> {
    StallEvents(setstate)
    + [RegWrite(TTBR0_REG, ttbr0 % 0x1_0000_0000), RegWrite(TTBR0_REG + 1, ttbr0 / 0x1_0000_0000)]
    + ReleaseEvents()
  }

  function SwitchEvents(active: Option<u64>, table: u64, default: u64, id: u32, at: Places): seq<Event> {
    (if active != Some(table) && table != default then TableEvents(table, at.setstate) else [])
    + [Mark(0x2EAD_BEEF)]
    + [MemWrite(at.rbCurrent, [id])]
    + [MemWrite(at.globalCurrent, [id])]
    + [RegWrite(A3XX_UCHE_CACHE_INVALIDATE0_REG, 0), RegWrite(A3XX_UCHE_CACHE_INVALIDATE0_REG + 1, 0x9000_0000)]
  }

  /** Whether bit 0 of the halt register is set behind these events. */
  function Halted(es: seq<Event>, was: bool): bool {
    if es == [] then was
    else
      match es[|es| - 1]
      case RegModify(reg, kept, added) =>
        if reg == HALT_CTRL0 then added % 2 == 1 || (kept % 2 == 1 && Halted(es[..|es| - 1], was))
        else Halted(es[..|es| - 1], was)
      case _ => Halted(es[..|es| - 1], was)
  }

  lemma HaltedSnoc(es: seq<Event>, e: Event, was: bool)
    ensures e.RegModify? && e.reg == HALT_CTRL0 ==>
      (Halted(es + [e], was) <==> e.added % 2 == 1 || (e.kept % 2 == 1 && Halted(es, was)))
    ensures !e.RegModify? ==> Halted(es + [e], was) == Halted(es, was)
  {
    assert (es + [e])[..|es|] == es;
  }

  lemma {:induction false} HaltedAppend(es: seq<Event>, fs: seq<Event>, was: bool)
    ensures Halted(es + fs, was) == Halted(fs, Halted(es, was))
    decreases |fs|
  {
    if fs == [] {
      assert es + fs == es;
    } else {
      assert (es + fs)[..|es + fs| - 1] == es + fs[..|fs| - 1];
      HaltedAppend(es, fs[..|fs| - 1], was);
    }
  }

  /** However the bus was before: each half of the table is written with the bus halted, and behind the switch it is
      not halted any more. */
  lemma TableUnderHalt(ttbr0: u64, setstate: u32, was: bool)
    ensures var es := TableEvents(ttbr0, setstate);
            && (forall i :: 0 <= i < |es| && es[i].RegWrite? && TTBR0_REG <= es[i].reg <= TTBR0_REG + 1 ==>
                  Halted(es[..i], was))
            && RegWrite(TTBR0_REG, ttbr0 % 0x1_0000_0000) in es && RegWrite(TTBR0_REG + 1, ttbr0 / 0x1_0000_0000) in es
            && !Halted(es, was)
  {
    var es, stall, table := TableEvents(ttbr0, setstate), StallEvents(setstate),
        [RegWrite(TTBR0_REG, ttbr0 % 0x1_0000_0000), RegWrite(TTBR0_REG + 1, ttbr0 / 0x1_0000_0000)];
    StallHalts(setstate, was);
    ReleaseFrees(true);
    assert es[..7] == stall && es[..8] == stall + [table[0]] && stall + [table[0]] + [table[1]] == stall + table;
    assert es[7] == table[0] && es[8] == table[1];
    HaltedSnoc(stall, table[0], was);
    HaltedSnoc(stall + [table[0]], table[1], was);
    HaltedAppend(stall + table, ReleaseEvents(), was);
    forall i | 0 <= i < |es| && es[i].RegWrite? && TTBR0_REG <= es[i].reg <= TTBR0_REG + 1
      ensures Halted(es[..i], was)
    {
      assert i == 7 || i == 8;
    }
  }

  lemma StallHalts(setstate: u32, was: bool)
    ensures Halted(StallEvents(setstate), was)
  {
    var es := StallEvents(setstate);
    assert es == es[..5] + [es[5]] + [es[6]];
    HaltedSnoc(es[..5], es[5], was);
    HaltedSnoc(es[..5] + [es[5]], es[6], was);
  }

  lemma ReleaseFrees(was: bool)
    ensures !Halted(ReleaseEvents(), was)
  {
    var es := ReleaseEvents();
    assert [] + [es[0]] == [es[0]] && es == [es[0]] + es[1..];
    HaltedSnoc([], es[0], was);
    HaltedAppend([es[0]], es[1..], was);
    HaltStays(es[1..], false);
  }

  lemma {:induction false} HaltStays(es: seq<Event>, was: bool)
    requires forall e :: e in es ==> !e.RegModify?
    ensures Halted(es, was) == was
  {
    if es != [] { HaltStays(es[..|es| - 1], was); }
  }

  lemma StallRuns(cp: Cp, setstate: u32)
    ensures Exec(cp, [Me(), Ib(setstate, 2), Idle(), Me()] + LockPackets()) ==
            cp.(trace := cp.trace + StallEvents(setstate))
  {
    hide Step, Exec, EventsOf;
    PlainEvents(CP_WAIT_FOR_ME, [0]);
    PlainEvents(CP_WAIT_FOR_IDLE, [0]);
    IbEvents(setstate, 2);
    WaitEvents(A3XX_CP_WFI_PEND_CTR, 1, 0xFFFF_FFFF);
    ModifyEvents(HALT_CTRL0, NOT_HALT, 1);
    WaitEvents(HALT_CTRL1, 1, 0xFFFF_FFFF);
    C.ExecEach(cp, [Me(), Ib(setstate, 2), Idle(), Me()] + LockPackets(), StallEvents(setstate));
  }

  lemma ReleaseRuns(cp: Cp)
    ensures Exec(cp, UnlockPackets() + FlushPackets() + [Me(), Idle(), T3(CP_INVALIDATE_STATE, [0x7_FFFF])]) ==
            cp.(trace := cp.trace + ReleaseEvents())
  {
    hide Step, Exec, EventsOf;
    PlainEvents(CP_WAIT_FOR_ME, [0]);
    PlainEvents(CP_WAIT_FOR_IDLE, [0]);
    PlainEvents(CP_INVALIDATE_STATE, [0x7_FFFF]);
    ModifyEvents(HALT_CTRL0, NOT_HALT, 0);
    RegEvents(TLBIALL_REG, 1);
    RegEvents(TLBSYNC_REG, 0);
    WaitEvents(TLBSTATUS_REG, 0, 1);
    C.ExecEach(cp, UnlockPackets() + FlushPackets() + [Me(), Idle(), T3(CP_INVALIDATE_STATE, [0x7_FFFF])],
               ReleaseEvents());
  }

  lemma StepTable(cp: Cp, ttbr0: u64)
    ensures Step(cp, TablePacket(ttbr0)) ==
            cp.(trace := cp.trace + [RegWrite(TTBR0_REG, ttbr0 % 0x1_0000_0000),
                                     RegWrite(TTBR0_REG + 1, ttbr0 / 0x1_0000_0000)])
  {
    var ws := [TTBR0_REG, Lower32(ttbr0), Upper32(ttbr0)];
    assert ws[1..] == [Lower32(ttbr0), Upper32(ttbr0)];
    TwoRegs(TTBR0_REG, Lower32(ttbr0), Upper32(ttbr0));
  }

  lemma TableRuns(cp: Cp, ttbr0: u64, setstate: u32)
    ensures Exec(cp, TablePackets(ttbr0, setstate)) == cp.(trace := cp.trace + TableEvents(ttbr0, setstate))
  {
    hide Step, Exec, LockPackets, UnlockPackets, FlushPackets, TablePacket, StallEvents, ReleaseEvents;
    var opening, closing := [Me(), Ib(setstate, 2), Idle(), Me()], [Me(), Idle(), T3(CP_INVALIDATE_STATE, [0x7_FFFF])];
    var stall := opening + LockPackets();
    StallRuns(cp, setstate);
    var c1 := Exec(cp, stall);
    A.ExecAppend(cp, stall, [TablePacket(ttbr0)]);
    A.ExecOne(c1, TablePacket(ttbr0));
    StepTable(c1, ttbr0);
    var c2 := Exec(cp, stall + [TablePacket(ttbr0)]);
    ReleaseRuns(c2);
    A.ExecAppend(cp, stall + [TablePacket(ttbr0)], UnlockPackets() + FlushPackets() + closing);
    Later(stall + [TablePacket(ttbr0)], UnlockPackets(), FlushPackets(), closing);
    C.Regroup(cp.trace, StallEvents(setstate),
              [RegWrite(TTBR0_REG, ttbr0 % 0x1_0000_0000), RegWrite(TTBR0_REG + 1, ttbr0 / 0x1_0000_0000)],
              ReleaseEvents());
  }

  lemma Later<T>(a: seq<T>, b: seq<T>, c: seq<T>, d: seq<T>)
    ensures a + b + c + d == a + (b + c + d)
  {
  }

  lemma StepUche(cp: Cp)
    ensures Step(cp, T0(A3XX_UCHE_CACHE_INVALIDATE0_REG, [0, 0x9000_0000])) ==
            cp.(trace := cp.trace + [RegWrite(A3XX_UCHE_CACHE_INVALIDATE0_REG, 0),
                                     RegWrite(A3XX_UCHE_CACHE_INVALIDATE0_REG + 1, 0x9000_0000)])
  {
    TwoRegs(A3XX_UCHE_CACHE_INVALIDATE0_REG, 0, 0x9000_0000);
  }

  lemma SwitchRuns(cp: Cp, active: Option<u64>, table: u64, default: u64, id: u32, at: Places)
    ensures Exec(cp, SwitchPackets(active, table, default, id, at)) ==
            cp.(trace := cp.trace + SwitchEvents(active, table, default, id, at))
  {
    hide Step, Exec, EventsOf, TablePackets, TableEvents, Write;
    var changes := active != Some(table) && table != default;
    var p0 := if changes then TablePackets(table, at.setstate) else [];
    var e0 := if changes then TableEvents(table, at.setstate) else [];
    A.NothingDone(cp);
    TableRuns(cp, table, at.setstate);
    assert Exec(cp, p0) == cp.(trace := cp.trace + e0);
    MarkEvents(A.CONTEXT_TO_MEM_IDENTIFIER);
    var t0 := A.ExecMore(cp, p0, e0, true, Nop(A.CONTEXT_TO_MEM_IDENTIFIER), Mark(0x2EAD_BEEF));
    var p1, e1 := p0 + [Nop(A.CONTEXT_TO_MEM_IDENTIFIER)], e0 + [Mark(0x2EAD_BEEF)];
    WriteEvents(at.rbCurrent, id);
    var t1 := A.ExecMore(cp, p1, e1, true, Write(at.rbCurrent, id), MemWrite(at.rbCurrent, [id]));
    var p2, e2 := p1 + [Write(at.rbCurrent, id)], e1 + [MemWrite(at.rbCurrent, [id])];
    WriteEvents(at.globalCurrent, id);
    var t2 := A.ExecMore(cp, p2, e2, true, Write(at.globalCurrent, id), MemWrite(at.globalCurrent, [id]));
    var p3, e3 := p2 + [Write(at.globalCurrent, id)], e2 + [MemWrite(at.globalCurrent, [id])];
    StepUche(Exec(cp, p3));
    A.ExecWhen(cp, p3, true, T0(A3XX_UCHE_CACHE_INVALIDATE0_REG, [0, 0x9000_0000]));
    RegroupAll(cp.trace, e3, [RegWrite(A3XX_UCHE_CACHE_INVALIDATE0_REG, 0),
                              RegWrite(A3XX_UCHE_CACHE_INVALIDATE0_REG + 1, 0x9000_0000)]);
  }

  lemma TableFits(ttbr0: u64, setstate: u32)
    ensures AllFit(TablePackets(ttbr0, setstate))
  {
    var opening, closing := [Me(), Ib(setstate, 2), Idle(), Me()], [Me(), Idle(), T3(CP_INVALIDATE_STATE, [0x7_FFFF])];
    PartsFit(ttbr0, setstate);
    hide AllFit, LockPackets, TablePacket, UnlockPackets, FlushPackets;
    var p2 := opening + LockPackets();
    var p3 := p2 + [TablePacket(ttbr0)];
    var p4 := p3 + UnlockPackets();
    FitAppend(opening, LockPackets());
    FitAppend(p2, [TablePacket(ttbr0)]);
    FitAppend(p3, UnlockPackets());
    FitAppend(p4, FlushPackets());
    FitAppend(p4 + FlushPackets(), closing);
  }

  lemma PartsFit(ttbr0: u64, setstate: u32)
    ensures AllFit([Me(), Ib(setstate, 2), Idle(), Me()]) && AllFit([Me(), Idle(), T3(CP_INVALIDATE_STATE, [0x7_FFFF])])
    ensures AllFit(LockPackets()) && AllFit([TablePacket(ttbr0)]) && AllFit(UnlockPackets()) && AllFit(FlushPackets())
  {
  }

  /** Builds a context switch in a 64-dword array. */
  method SwitchCommands(active: Option<u64>, table: u64, default: u64, id: u32, at: Places)
    returns (cmds: array<u32>, count: nat)
    ensures fresh(cmds) && cmds.Length == 64
    ensures count == |Encode(SwitchPackets(active, table, default, id, at))| <= 64
    ensures cmds[..count] == Encode(SwitchPackets(active, table, default, id, at))
  {
    cmds := new u32[64](_ => 0);
    hide Encode, Splice, TablePackets;
    ghost var m, ps: seq<Packet> := cmds[..], [];
    SpliceNothing(m, 0);
    count := 0;
    if active != Some(table) {
      count := PagetableSwitch(cmds, table, default, at.setstate);
      ps := if table == default then [] else TablePackets(table, at.setstate);
    }
    ghost var first := ps;
    assert first == if C.ChangesTable(active, table, default) then TablePackets(table, at.setstate) else [];
    count, ps := Emit(cmds, m, 0, count, ps, Nop(A.CONTEXT_TO_MEM_IDENTIFIER));
    count, ps := Emit(cmds, m, 0, count, ps, Write(at.rbCurrent, id));
    count, ps := Emit(cmds, m, 0, count, ps, Write(at.globalCurrent, id));
    count, ps := Emit(cmds, m, 0, count, ps, T0(A3XX_UCHE_CACHE_INVALIDATE0_REG, [0, 0x9000_0000]));
    SpliceFront(m, Encode(ps));
  }

  /** What is wrapped around the buffers of a user command here: nothing but two markers. */
  datatype Command = Command(ibs: seq<C.IbNode>, skipAll: bool, preamble: bool)

  function Listed(c: Command): seq<C.IbNode> { if c.skipAll then [] else c.ibs }

  function SizeField(size: u64): u32 { (size / 4) % 0x1_0000_0000 }

  function IbPacket(ib: C.IbNode): Packet { Ib(Lower32(ib.addr), SizeField(ib.size)) }

  function NodePacket(ib: C.IbNode, preamble: bool): Packet {
    if C.Skipped(ib, preamble) then T3(CP_NOP, Words(IbPacket(ib))) else IbPacket(ib)
  }

  function NodePackets(ibs: seq<C.IbNode>, preamble: bool): seq<Packet> {
    if ibs == [] then [] else NodePackets(ibs[..|ibs| - 1], preamble) + [NodePacket(ibs[|ibs| - 1], preamble)]
  }

  function CommandPackets(c: Command): seq<Packet> {
    [Nop(A.START_IB_IDENTIFIER)] + NodePackets(Listed(c), c.preamble) + [Nop(A.END_IB_IDENTIFIER)]
  }

  /** Builds a user command in the 4 + 4n dwords allocated for it. */
  method BuildCommand(c: Command) returns (cmds: array<u32>, index: nat)
    ensures fresh(cmds) && cmds.Length == A3XX_COMMAND_DWORDS + |Listed(c)| * 4
    ensures index == |Encode(CommandPackets(c))| <= cmds.Length
    ensures cmds[..index] == Encode(CommandPackets(c))
  {
    hide Encode, Splice;
    var ibs := Listed(c);
    cmds := new u32[A3XX_COMMAND_DWORDS + |ibs| * 4](_ => 0);
    ghost var m, ps: seq<Packet> := cmds[..], [];
    SpliceNothing(m, 0);
    index, ps := Emit(cmds, m, 0, 0, ps, Nop(A.START_IB_IDENTIFIER));
    ghost var front := [Nop(A.START_IB_IDENTIFIER)];
    assert ps == front;
    assert front + NodePackets([], c.preamble) == front;
    for i := 0 to |ibs|
      invariant ps == front + NodePackets(ibs[..i], c.preamble)
      invariant index == |Encode(ps)| <= 2 + 4 * i
      invariant cmds[..] == Splice(m, 0, Encode(ps))
    {
      index, ps := EmitNode(cmds, m, index, ps, ibs[i], c.preamble);
      assert ibs[..i + 1][..i] == ibs[..i];
      assert front + NodePackets(ibs[..i], c.preamble) + [NodePacket(ibs[i], c.preamble)]
          == front + (NodePackets(ibs[..i], c.preamble) + [NodePacket(ibs[i], c.preamble)]);
    }
    assert ibs[..|ibs|] == ibs;
    index, ps := Emit(cmds, m, 0, index, ps, Nop(A.END_IB_IDENTIFIER));
    SpliceFront(m, Encode(ps));
  }

  /** A NOP header in front of a buffer that is to be skipped, and then the buffer's packet. */
  method EmitNode(cmds: array<u32>, ghost m: seq<u32>, at: nat, ghost ps: seq<Packet>, ib: C.IbNode, preamble: bool)
    returns (index: nat, ghost qs: seq<Packet>)
    requires at == |Encode(ps)| && at + 4 <= cmds.Length == |m| && cmds[..] == Splice(m, 0, Encode(ps))
    modifies cmds
    ensures qs == ps + [NodePacket(ib, preamble)] && index == |Encode(qs)| <= at + 4
    ensures cmds[..] == Splice(m, 0, Encode(qs))
  {
    hide Encode, Splice;
    qs := ps + [NodePacket(ib, preamble)];
    EncodeAppend(ps, [NodePacket(ib, preamble)]);
    EncodeOne(NodePacket(ib, preamble));
    ghost var done := Encode(ps);
    index := at;
    if C.Skipped(ib, preamble) {
      index := Copy(cmds, index, [Type3(CP_NOP, 3)]);
      SpliceSplice(m, 0, done, [Type3(CP_NOP, 3)]);
      done := done + [Type3(CP_NOP, 3)];
    }
    index := Copy(cmds, index, Words(IbPacket(ib)));
    SpliceSplice(m, 0, done, Words(IbPacket(ib)));
    assert done + Words(IbPacket(ib)) == Encode(ps) + Words(NodePacket(ib, preamble));
  }

  /** The buffers to run, in order: not those that are to be skipped, and those of a preamble only if the command
      asks for it. */
  function Buffers(ibs: seq<C.IbNode>, preamble: bool): seq<Event> {
    if ibs == [] then []
    else
      var last := ibs[|ibs| - 1];
      Buffers(ibs[..|ibs| - 1], preamble)
      + A.Do(!last.skip && (!last.preamble || preamble),
             IndirectBuffer(last.addr % 0x1_0000_0000, (last.size / 4) % 0x1_0000_0000))
  }

  lemma {:induction false} BuffersCount(ibs: seq<C.IbNode>, preamble: bool)
    ensures |Buffers(ibs, preamble)| == |C.RunAt(ibs, preamble)|
  {
    if ibs != [] { BuffersCount(ibs[..|ibs| - 1], preamble); }
  }

  lemma {:induction false} BuffersAt(ibs: seq<C.IbNode>, preamble: bool, k: nat)
    requires k < |C.RunAt(ibs, preamble)|
    ensures |Buffers(ibs, preamble)| == |C.RunAt(ibs, preamble)| && C.RunAt(ibs, preamble)[k] < |ibs|
    ensures var ib := ibs[C.RunAt(ibs, preamble)[k]];
            Buffers(ibs, preamble)[k] == IndirectBuffer(ib.addr % 0x1_0000_0000, (ib.size / 4) % 0x1_0000_0000)
    decreases |ibs|
  {
    var init := ibs[..|ibs| - 1];
    BuffersCount(init, preamble);
    if k < |C.RunAt(init, preamble)| { BuffersAt(init, preamble, k); }
  }

  /** `es` runs the buffers of a command that are at `at`, and those are the ones to run: in list order, by the lower
      halves of their addresses, and with 32 bits of their sizes in dwords. */
  ghost predicate RunsListed(c: Command, es: seq<Event>, at: seq<nat>) {
    && |es| == |at|
    && (forall k :: 0 <= k < |at| ==> at[k] < |c.ibs|)
    && (forall j, k :: 0 <= j < k < |at| ==> at[j] < at[k])
    && (forall i :: 0 <= i < |c.ibs| ==>
          (i in at <==> !c.skipAll && !c.ibs[i].skip && (!c.ibs[i].preamble || c.preamble)))
    && (forall k :: 0 <= k < |es| ==>
          var ib := c.ibs[at[k]];
          && es[k].IndirectBuffer? && es[k].addr == ib.addr % 0x1_0000_0000
          && 4 * es[k].size <= ib.size % 0x4_0000_0000 < 4 * es[k].size + 4
          && (ib.size % 4 == 0 && ib.size < 0x4_0000_0000 ==> 4 * es[k].size == ib.size))
  }

  lemma SizeInDwords(size: nat)
    ensures var n := (size / 4) % 0x1_0000_0000; 4 * n <= size % 0x4_0000_0000 < 4 * n + 4
  {
    var q := size / 0x4_0000_0000;
    var r := size % 0x4_0000_0000;
    assert size / 4 == q * 0x1_0000_0000 + r / 4;
  }

  lemma ListedBuffersRun(c: Command)
    ensures var ibs := if c.skipAll then [] else c.ibs;
            RunsListed(c, Buffers(ibs, c.preamble), C.RunAt(ibs, c.preamble))
  {
    var ibs := if c.skipAll then [] else c.ibs;
    var es, at := Buffers(ibs, c.preamble), C.RunAt(ibs, c.preamble);
    C.RunAtThose(ibs, c.preamble);
    BuffersCount(ibs, c.preamble);
    hide Buffers, C.RunAt;
    forall k | 0 <= k < |es|
      ensures var ib := c.ibs[at[k]];
              && es[k].IndirectBuffer? && es[k].addr == ib.addr % 0x1_0000_0000
              && 4 * es[k].size <= ib.size % 0x4_0000_0000 < 4 * es[k].size + 4
    {
      BuffersAt(ibs, c.preamble, k);
      SizeInDwords(c.ibs[at[k]].size);
    }
  }

  lemma {:induction false} NodesRun(cp: Cp, ibs: seq<C.IbNode>, preamble: bool)
    ensures Exec(cp, NodePackets(ibs, preamble)) == cp.(trace := cp.trace + Buffers(ibs, preamble))
  {
    hide Step, Exec, EventsOf;
    A.NothingDone(cp);
    if ibs != [] {
      var last, init := ibs[|ibs| - 1], ibs[..|ibs| - 1];
      NodesRun(cp, init, preamble);
      var addr, size := last.addr % 0x1_0000_0000, (last.size / 4) % 0x1_0000_0000;
      if !last.skip && (!last.preamble || preamble) {
        IbEvents(addr, size);
        var t := A.ExecMore(cp, NodePackets(init, preamble), Buffers(init, preamble), true, Ib(addr, size),
                            IndirectBuffer(addr, size));
      } else {
        ExecSilent(cp, NodePackets(init, preamble), Words(Ib(addr, size)));
        C.NothingMore(Buffers(init, preamble));
      }
    }
  }

  /** What a user command does: two marks around its buffers. */
  function CommandEvents(c: Command): seq<Event> {
    [Mark(0x2EAD_EABE)] + Buffers(if c.skipAll then [] else c.ibs, c.preamble) + [Mark(0x2ABE_DEAD)]
  }

  lemma CommandRuns(cp: Cp, c: Command)
    ensures Exec(cp, CommandPackets(c)) == cp.(trace := cp.trace + CommandEvents(c))
  {
    hide Step, Exec, EventsOf, NodePackets, Buffers;
    var nodes, first := NodePackets(Listed(c), c.preamble), Mark(0x2EAD_EABE);
    var buffers := Buffers(Listed(c), c.preamble);
    var t := MarkFirst(cp, A.START_IB_IDENTIFIER);
    A.ExecAppend(cp, [Nop(A.START_IB_IDENTIFIER)], nodes);
    NodesRun(t, Listed(c), c.preamble);
    RegroupAll(cp.trace, [first], buffers);
    MarkEvents(A.END_IB_IDENTIFIER);
    var u := A.ExecMore(cp, [Nop(A.START_IB_IDENTIFIER)] + nodes, [first] + buffers, true, Nop(A.END_IB_IDENTIFIER),
                        Mark(0x2ABE_DEAD));
  }

  lemma {:induction false} NodesFit(ibs: seq<C.IbNode>, preamble: bool)
    ensures AllFit(NodePackets(ibs, preamble))
  {
    if ibs != [] {
      NodesFit(ibs[..|ibs| - 1], preamble);
    }
  }

  /** The submit-command round trip: the words split into whole packets again, and what those do is to
      run the buffers that are not skipped, in list order, between the submission's own events. The
      command ends protected exactly when it carries no fix-up or was sent as not protected: the fix-up
      writes protection off twice. */
  lemma SubmitCommandRoundTrip(s: Submission, c: Command)
    ensures Parse(SubmissionWords(s, Encode(CommandPackets(c)))) == Some(SubmissionPackets(s, CommandPackets(c)))
    ensures var t := Exec(Cp(true, false, []), SubmissionPackets(s, CommandPackets(c)));
            && t.trace == HeadEvents(s) + CommandEvents(c) + TailEvents(s)
            && (t.prot <==> s.fixup.None? || s.notProtected)
    ensures var ibs := if c.skipAll then [] else c.ibs;
            RunsListed(c, Buffers(ibs, c.preamble), C.RunAt(ibs, c.preamble))
  {
    ListedBuffersRun(c);
    hide RunsListed, C.RunAt, CommandEvents;
    hide SubmissionWords, SubmissionPackets, HeadEvents, TailEvents, Buffers, Exec, Encode, Parse;
    NodesFit(Listed(c), c.preamble);
    ParseEncode(CommandPackets(c));
    hide CommandPackets;
    SubmissionIsWhole(s, Encode(CommandPackets(c)));
    SubmissionRuns(s, CommandPackets(c));
    CommandRuns(Cp(s.fixup.None? && !s.notProtected, false, HeadEvents(s)), c);
  }

  /** The same for the context switch, which installs the table exactly when it changes. */
  lemma SubmitSwitchRoundTrip(s: Submission, active: Option<u64>, table: u64, default: u64, id: u32)
    requires s.notProtected
    ensures var ps := SwitchPackets(active, table, default, id, s.at);
            && Parse(SubmissionWords(s, Encode(ps))) == Some(SubmissionPackets(s, ps))
            && Exec(Cp(true, false, []), SubmissionPackets(s, ps)) ==
               Cp(true, false, HeadEvents(s) + SwitchEvents(active, table, default, id, s.at) + TailEvents(s))
  {
    var ps := SwitchPackets(active, table, default, id, s.at);
    SwitchFits(active, table, default, id, s.at);
    hide SubmissionWords, SubmissionPackets, SwitchPackets, HeadEvents, TailEvents, SwitchEvents, Exec, Encode, Parse;
    ParseEncode(ps);
    SubmissionIsWhole(s, Encode(ps));
    SubmissionRuns(s, ps);
    SwitchRuns(Cp(false, false, HeadEvents(s)), active, table, default, id, s.at);
  }

  lemma SwitchFits(active: Option<u64>, table: u64, default: u64, id: u32, at: Places)
    ensures AllFit(SwitchPackets(active, table, default, id, at))
  {
    TableFits(table, at.setstate);
    hide TablePackets;
  }
}
