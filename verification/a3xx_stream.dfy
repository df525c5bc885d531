/** The a3xx command streams: submissions with their power-on fix-up, context switches, user commands. */
module A3xxStream {
  import opened Wrappers
  import opened Pm4
  import opened RingSpace
  import A = A5xxStream

  const A3XX_SUBMIT_MAX := 55
  const A3XX_COMMAND_DWORDS := 4
  const PWRON_FIXUP_IDENTIFIER: u32 := 0x2AFAFAFA
  const HLSQ_FLUSH: u32 := 7
  const A3XX_CP_WFI_PEND_CTR: u32 := 0x01F5
  const HALT_CTRL0: u32 := 0x3800
  const HALT_CTRL1: u32 := 0x3801
  const NOT_HALT: u32 := 0xFFFF_FFFE
  const TTBR0_REG := (0xa000 + 0x20) / 4
  const TLBIALL_REG := (0xa000 + 0x618) / 4
  const TLBSYNC_REG := (0xa000 + 0x7f0) / 4
  const TLBSTATUS_REG: u32 := (0xa000 + 0x7f4) / 4
  const A3XX_UCHE_CACHE_INVALIDATE0_REG := 0xEA0
  const KERNEL_GROUP_X: u32 := 4 * 0x1_0000 + (0x2215 - 0x2000)

  /** Locations as 32-bit GPU addresses. */
  datatype Places = Places(ctxSop: u32, ctxEop: u32, rbSop: u32, rbEop: u32,
                           rbCurrent: u32, globalCurrent: u32, setstate: u32)

  /** An indirect buffer: address and length in dwords. */
  datatype Span = Span(addr: u32, dwords: u32)

  datatype Submission = Submission(
    inContext: bool,
    fixup: Option<Span>,
    preProfile: Option<Span>,
    postProfile: Option<Span>,
    notProtected: bool,
    wfi: bool,
    timestamp: u32,
    rbTimestamp: u32,
    at: Places)

  function Nop(id: u32): Packet { T3(CP_NOP, [id]) }
  function Protected(on: u32): Packet { T3(CP_SET_PROTECTED_MODE, [on]) }
  function Ib(addr: u32, dwords: u32): Packet { T3(CP_INDIRECT_BUFFER_PFE, [addr, dwords]) }
  function Write(addr: u32, value: u32): Packet { T3(CP_MEM_WRITE, [addr, value]) }
  function Event(flags: u32, addr: u32, value: u32): Packet { T3(CP_EVENT_WRITE, [flags, addr, value]) }
  function Idle(): Packet { T3(CP_WAIT_FOR_IDLE, [0]) }
  function Me(): Packet { T3(CP_WAIT_FOR_ME, [0]) }

  function Of(p: Option<Span>): Packet {
    match p case None => Ib(0, 0) case Some(b) => Ib(b.addr, b.dwords)
  }

  /** The fix-up buffer runs unprotected, and protection is written off again after it. */
  function FixupPackets(s: Submission): seq<Packet> {
    if s.fixup.None? then []
    else [Protected(0)] + [Nop(PWRON_FIXUP_IDENTIFIER)] + [Of(s.fixup)] + [Protected(0)]
  }

  function HeadPackets(s: Submission): seq<Packet> {
    [Nop(if s.inContext then A.CMD_IDENTIFIER else A.CMD_INTERNAL_IDENTIFIER)]
    + FixupPackets(s)
    + A.When(s.preProfile.Some?, Of(s.preProfile))
    + A.When(s.inContext, Write(s.at.ctxSop, s.timestamp))
    + [Write(s.at.rbSop, s.rbTimestamp)]
    + A.When(s.notProtected, Protected(0))
  }

  function TailPackets(s: Submission): seq<Packet> {
    A.When(s.notProtected, Protected(1))
    + [T3(CP_EVENT_WRITE, [HLSQ_FLUSH])]
    + [Idle()]
    + A.When(s.postProfile.Some?, Of(s.postProfile))
    + A.When(s.inContext, Event(CACHE_FLUSH_TS + 0x8000_0000, s.at.ctxEop, s.timestamp))
    + [Event(if s.inContext then CACHE_FLUSH_TS else CACHE_FLUSH_TS + 0x8000_0000, s.at.rbEop, s.rbTimestamp)]
    + [T3(CP_SET_CONSTANT, [KERNEL_GROUP_X, 0])]
    + A.When(s.wfi, Idle())
  }

  function SubmissionPackets(s: Submission, body: seq<Packet>): seq<Packet> {
    HeadPackets(s) + body + TailPackets(s)
  }

  function SubmissionWords(s: Submission, input: seq<u32>): seq<u32> {
    Encode(HeadPackets(s)) + input + Encode(TailPackets(s))
  }

  method EmitHead(mem: array<u32>, start: nat, s: Submission) returns (end: nat)
    requires start + 22 <= mem.Length
    modifies mem
    ensures start <= end == start + |Encode(HeadPackets(s))| <= start + 22
    ensures mem[..] == Splice(old(mem[..]), start, Encode(HeadPackets(s)))
  {
    hide Encode, Splice;
    ghost var m, ps: seq<Packet> := mem[..], [];
    SpliceNothing(m, start);
    end, ps := Emit(mem, m, start, start, ps, Nop(if s.inContext then A.CMD_IDENTIFIER else A.CMD_INTERNAL_IDENTIFIER));
    ghost var first := ps;
    assert first == [Nop(if s.inContext then A.CMD_IDENTIFIER else A.CMD_INTERNAL_IDENTIFIER)];
    if s.fixup.Some? {
      end, ps := Emit(mem, m, start, end, ps, Protected(0));
      end, ps := Emit(mem, m, start, end, ps, Nop(PWRON_FIXUP_IDENTIFIER));
      end, ps := Emit(mem, m, start, end, ps, Of(s.fixup));
      end, ps := Emit(mem, m, start, end, ps, Protected(0));
    }
    assert ps == first + FixupPackets(s);
    end, ps := A.EmitWhen(mem, m, start, end, ps, s.preProfile.Some?, Of(s.preProfile));
    end, ps := A.EmitWhen(mem, m, start, end, ps, s.inContext, Write(s.at.ctxSop, s.timestamp));
    end, ps := Emit(mem, m, start, end, ps, Write(s.at.rbSop, s.rbTimestamp));
    end, ps := A.EmitWhen(mem, m, start, end, ps, s.notProtected, Protected(0));
  }

  method EmitTail(mem: array<u32>, start: nat, s: Submission) returns (end: nat)
    requires start + 22 <= mem.Length
    modifies mem
    ensures start <= end == start + |Encode(TailPackets(s))| <= start + 22
    ensures mem[..] == Splice(old(mem[..]), start, Encode(TailPackets(s)))
  {
    hide Encode, Splice;
    ghost var m, ps: seq<Packet> := mem[..], [];
    SpliceNothing(m, start);
    end, ps := A.EmitWhen(mem, m, start, start, ps, s.notProtected, Protected(1));
    assert ps == A.When(s.notProtected, Protected(1));
    end, ps := Emit(mem, m, start, end, ps, T3(CP_EVENT_WRITE, [HLSQ_FLUSH]));
    end, ps := Emit(mem, m, start, end, ps, Idle());
    end, ps := A.EmitWhen(mem, m, start, end, ps, s.postProfile.Some?, Of(s.postProfile));
    end, ps := A.EmitWhen(mem, m, start, end, ps, s.inContext,
                          Event(CACHE_FLUSH_TS + 0x8000_0000, s.at.ctxEop, s.timestamp));
    end, ps := Emit(mem, m, start, end, ps,
                    Event(if s.inContext then CACHE_FLUSH_TS else CACHE_FLUSH_TS + 0x8000_0000,
                          s.at.rbEop, s.rbTimestamp));
    end, ps := Emit(mem, m, start, end, ps, T3(CP_SET_CONSTANT, [KERNEL_GROUP_X, 0]));
    end, ps := A.EmitWhen(mem, m, start, end, ps, s.wfi, Idle());
  }

  /** One submission: taken, written and handed over to the hardware in full, or refused without a trace but for the
      timestamp. */
  method AddCmds(rb: Ringbuffer, detached: bool, fault: bool, rptr: nat, s: Submission, input: seq<u32>,
                 reg: Register)
    returns (ret: Ret)
    requires rb.Valid() && rptr < RB_DWORDS && rb.legacy
    requires s.rbTimestamp == (rb.timestamp + 1) % 0x1_0000_0000
    modifies rb, rb.mem, reg
    ensures rb.Valid()
    ensures reg.value == if ret == Ok then rb.wptr else old(reg.value)
    ensures ret == if s.inContext && detached then NoEntry
                   else if fault then Protocol
                   else if Alloc(old(rb.wptrNext), rptr, A3XX_SUBMIT_MAX + |input|) == NoSpace then NoSpc
                   else Ok
    ensures rb.timestamp == if ret in {NoEntry, Protocol} then old(rb.timestamp) else s.rbTimestamp
    ensures ret != Ok ==> rb.wptrNext == old(rb.wptrNext) && rb.wptr == old(rb.wptr) && rb.mem[..] == old(rb.mem[..])
    ensures ret == Ok ==>
      var space := Alloc(old(rb.wptrNext), rptr, A3XX_SUBMIT_MAX + |input|);
      var ws := SubmissionWords(s, input);
      && rb.wptr == rb.wptrNext == space.start + |ws| <= space.wptr
      && rb.mem[..] == Splice(rb.AfterAlloc(old(rb.mem[..]), old(rb.wptrNext), space.wrapped), space.start, ws)
  {
    hide Encode, Splice, HeadPackets, TailPackets, Alloc;
    if s.inContext && detached { return NoEntry; }
    if fault { return Protocol; }
    rb.timestamp := (rb.timestamp + 1) % 0x1_0000_0000;
    var size := A3XX_SUBMIT_MAX + |input|;
    A.AllocEnds(rb.wptrNext, rptr, size);
    var slot := rb.AllocSpace(rptr, size);
    if slot.None? { return NoSpc; }
    ghost var m, head := rb.mem[..], Encode(HeadPackets(s));
    var end := EmitHead(rb.mem, slot.value, s);
    end := Copy(rb.mem, end, input);
    SpliceSplice(m, slot.value, head, input);
    end := EmitTail(rb.mem, end, s);
    SpliceSplice(m, slot.value, head + input, Encode(TailPackets(s)));
    rb.wptrNext := rb.wptrNext - (size - (end - slot.value));
    reg.value := rb.wptrNext;
    rb.wptr := rb.wptrNext;
    ret := Ok;
  }

  lemma HeadFits(s: Submission)
    ensures AllFit(HeadPackets(s))
  {
    forall p | p in FixupPackets(s) ensures Fits(p) {}
    forall p | p in HeadPackets(s) ensures Fits(p) {
      assert p in FixupPackets(s) || p !in FixupPackets(s);
    }
  }

  lemma TailFits(s: Submission)
    ensures AllFit(TailPackets(s))
  {
    forall p | p in TailPackets(s) ensures Fits(p) {}
  }

  /** A submission around any whole payload is whole, and says exactly what its packets say. */
  lemma SubmissionIsWhole(s: Submission, input: seq<u32>)
    requires Parse(input).Some?
    ensures Parse(SubmissionWords(s, input)) == Some(SubmissionPackets(s, Parse(input).value))
  {
    hide HeadPackets, TailPackets, Encode, Parse;
    HeadFits(s);
    TailFits(s);
    ParseEncode(HeadPackets(s));
    ParseEncode(TailPackets(s));
    ParseAppend(Encode(HeadPackets(s)), input);
    ParseAppend(Encode(HeadPackets(s)) + input, Encode(TailPackets(s)));
  }

  function SpanEvent(p: Option<Span>): seq<Event> {
    match p case None => [] case Some(b) => [IndirectBuffer(b.addr, b.dwords)]
  }

  /** The fix-up buffer is run with protection off, and that is written off again behind it. */
  function FixupEvents(s: Submission): seq<Event> {
    match s.fixup
    case None => []
    case Some(b) =>
      [Mode(CP_SET_PROTECTED_MODE, false), Mark(0x2AFA_FAFA), IndirectBuffer(b.addr, b.dwords),
       Mode(CP_SET_PROTECTED_MODE, false)]
  }

  function HeadEvents(s: Submission): seq<Event> {
    [Mark(if s.inContext then 0x2EED_FACE else 0x2EED_D00D)]
    + FixupEvents(s)
    + SpanEvent(s.preProfile)
    + A.Do(s.inContext, MemWrite(s.at.ctxSop, [s.timestamp]))
    + [MemWrite(s.at.rbSop, [s.rbTimestamp])]
    + A.Do(s.notProtected, Mode(CP_SET_PROTECTED_MODE, false))
  }

  /** The end stamp that interrupts is the context's, or the ring's when there is no context. */
  function TailEvents(s: Submission): seq<Event> {
    A.Do(s.notProtected, Mode(CP_SET_PROTECTED_MODE, true))
    + [Act(CP_EVENT_WRITE, [7])]
    + [Act(CP_WAIT_FOR_IDLE, [0])]
    + SpanEvent(s.postProfile)
    + A.Do(s.inContext, Stamp(s.at.ctxEop, s.timestamp, true))
    + [Stamp(s.at.rbEop, s.rbTimestamp, !s.inContext)]
    + [Act(CP_SET_CONSTANT, [0x4_0215, 0])]
    + A.Do(s.wfi, Act(CP_WAIT_FOR_IDLE, [0]))
  }

  lemma ModeEvents(on: u32)
    ensures EventsOf(Protected(on)) == [Mode(CP_SET_PROTECTED_MODE, on != 0)]
  {
  }

  lemma WriteEvents(addr: u32, value: u32)
    ensures EventsOf(Write(addr, value)) == [MemWrite(addr, [value])]
    ensures !SetsMode(Write(addr, value), CP_SET_PROTECTED_MODE) && !SetsMode(Write(addr, value), CP_SET_SECURE_MODE)
  {
  }

  lemma IbEvents(addr: u32, size: u32)
    ensures EventsOf(Ib(addr, size)) == [IndirectBuffer(addr, size)]
  {
  }

  lemma StampEvents(flags: u32, addr: u32, value: u32)
    requires flags == CACHE_FLUSH_TS || flags == CACHE_FLUSH_TS + 0x8000_0000
    ensures var p := Event(flags, addr, value);
            && EventsOf(p) == [Stamp(addr, value, flags != CACHE_FLUSH_TS)]
            && !SetsMode(p, CP_SET_PROTECTED_MODE) && !SetsMode(p, CP_SET_SECURE_MODE)
  {
  }

  /** Waits, flushes and settings. */
  predicate Plain(op: nat) {
    op == CP_WAIT_FOR_IDLE || op == CP_WAIT_FOR_ME || op == CP_SET_CONSTANT || op == CP_INVALIDATE_STATE
  }

  lemma PlainEvents(op: nat, ws: seq<u32>)
    requires Plain(op) || (op == CP_EVENT_WRITE && |ws| == 1)
    ensures EventsOf(T3(op, ws)) == [Act(op, ws)]
  {
  }

  lemma SpanDone(cp: Cp, ps: seq<Packet>, es: seq<Event>, p: Option<Span>) returns (t: Cp)
    requires Exec(cp, ps).trace == cp.trace + es
    ensures t == Exec(cp, ps + A.When(p.Some?, Of(p))) && t.trace == cp.trace + (es + SpanEvent(p))
    ensures t.prot == Exec(cp, ps).prot && t.secure == Exec(cp, ps).secure
  {
    hide Step, Exec, EventsOf;
    var b := if p.Some? then p.value else Span(0, 0);
    IbEvents(b.addr, b.dwords);
    t := A.ExecMore(cp, ps, es, p.Some?, Of(p), IndirectBuffer(b.addr, b.dwords));
  }

  lemma MarkEvents(id: u32)
    ensures EventsOf(Nop(id)) == [Mark(id)]
  {
  }

  lemma MarkFirst(cp: Cp, id: u32) returns (t: Cp)
    ensures t == Exec(cp, [Nop(id)]) == cp.(trace := cp.trace + [Mark(id)])
  {
    hide Step, Exec, EventsOf;
    A.NothingDone(cp);
    MarkEvents(id);
    t := A.ExecMore(cp, [], [], true, Nop(id), Mark(id));
    A.NothingFirst([Nop(id)]);
    A.NothingFirst([Mark(id)]);
  }

  lemma ExecSilent(cp: Cp, ps: seq<Packet>, ws: seq<u32>)
    requires |ws| != 1
    ensures Exec(cp, ps + [T3(CP_NOP, ws)]) == Exec(cp, ps)
  {
    hide Step, Exec;
    A.ExecWhen(cp, ps, true, T3(CP_NOP, ws));
    StepNop(Exec(cp, ps), ws);
  }

  lemma StepNop(cp: Cp, ws: seq<u32>)
    requires |ws| != 1
    ensures Step(cp, T3(CP_NOP, ws)) == cp
  {
  }

  /** The fix-up leaves protection off, however it was. */
  lemma ExecFixup(cp: Cp, s: Submission)
    ensures Exec(cp, FixupPackets(s)) ==
            Cp(cp.prot && s.fixup.None?, cp.secure, cp.trace + FixupEvents(s))
  {
    hide Step, Exec, EventsOf;
    A.NothingDone(cp);
    if s.fixup.Some? {
      var off := Mode(CP_SET_PROTECTED_MODE, false);
      ModeEvents(0);
      var t1 := A.ExecMore(cp, [], [], true, Protected(0), off);
      A.NothingFirst([Protected(0)]);
      A.NothingFirst([off]);
      MarkEvents(PWRON_FIXUP_IDENTIFIER);
      var mark := Mark(0x2AFA_FAFA);
      var t2 := A.ExecMore(cp, [Protected(0)], [off], true, Nop(PWRON_FIXUP_IDENTIFIER), mark);
      var p2 := [Protected(0)] + [Nop(PWRON_FIXUP_IDENTIFIER)];
      var t3 := SpanDone(cp, p2, [off] + [mark], s.fixup);
      var t4 := A.ExecMore(cp, p2 + [Of(s.fixup)], [off] + [mark] + SpanEvent(s.fixup), true, Protected(0), off);
      assert [off] + [mark] + SpanEvent(s.fixup) + [off] == FixupEvents(s);
    }
  }

  lemma ExecHead(s: Submission)
    ensures Exec(Cp(true, false, []), HeadPackets(s)) ==
            Cp(s.fixup.None? && !s.notProtected, false, HeadEvents(s))
  {
    hide Step, Exec, EventsOf, Of, SpanEvent, Write, FixupPackets, FixupEvents;
    var cp := Cp(true, false, []);
    var id := if s.inContext then A.CMD_IDENTIFIER else A.CMD_INTERNAL_IDENTIFIER;
    var p1, e1 := [Nop(id)], [Mark(id)];
    var t1 := MarkFirst(cp, id);
    var p2, e2 := p1 + FixupPackets(s), e1 + FixupEvents(s);
    A.ExecAppend(cp, p1, FixupPackets(s));
    ExecFixup(t1, s);
    RegroupAll(cp.trace, e1, FixupEvents(s));
    var t2 := SpanDone(cp, p2, e2, s.preProfile);
    var p3, e3 := p2 + A.When(s.preProfile.Some?, Of(s.preProfile)), e2 + SpanEvent(s.preProfile);
    WriteEvents(s.at.ctxSop, s.timestamp);
    var t3 := A.ExecMore(cp, p3, e3, s.inContext, Write(s.at.ctxSop, s.timestamp),
                         MemWrite(s.at.ctxSop, [s.timestamp]));
    var p4 := p3 + A.When(s.inContext, Write(s.at.ctxSop, s.timestamp));
    var e4 := e3 + A.Do(s.inContext, MemWrite(s.at.ctxSop, [s.timestamp]));
    WriteEvents(s.at.rbSop, s.rbTimestamp);
    var t4 := A.ExecMore(cp, p4, e4, true, Write(s.at.rbSop, s.rbTimestamp), MemWrite(s.at.rbSop, [s.rbTimestamp]));
    ModeEvents(0);
    var t5 := A.ExecMore(cp, p4 + [Write(s.at.rbSop, s.rbTimestamp)], e4 + [MemWrite(s.at.rbSop, [s.rbTimestamp])],
                         s.notProtected, Protected(0), Mode(CP_SET_PROTECTED_MODE, false));
    A.NothingFirst(HeadEvents(s));
  }

  lemma ExecTail(cp: Cp, s: Submission)
    ensures Exec(cp, TailPackets(s)) == Cp(s.notProtected || cp.prot, cp.secure, cp.trace + TailEvents(s))
  {
    hide Step, Exec, EventsOf, Of, SpanEvent, Event;
    A.NothingDone(cp);
    ModeEvents(1);
    var t1 := A.ExecMore(cp, [], [], s.notProtected, Protected(1), Mode(CP_SET_PROTECTED_MODE, true));
    var p1 := A.When(s.notProtected, Protected(1));
    var e1 := A.Do(s.notProtected, Mode(CP_SET_PROTECTED_MODE, true));
    A.NothingFirst(p1);
    A.NothingFirst(e1);
    var flush, idle := T3(CP_EVENT_WRITE, [HLSQ_FLUSH]), Act(CP_WAIT_FOR_IDLE, [0]);
    PlainEvents(CP_EVENT_WRITE, [HLSQ_FLUSH]);
    PlainEvents(CP_WAIT_FOR_IDLE, [0]);
    var t2 := A.ExecMore(cp, p1, e1, true, flush, Act(CP_EVENT_WRITE, [7]));
    var p2, e2 := p1 + [flush], e1 + [Act(CP_EVENT_WRITE, [7])];
    var t3 := A.ExecMore(cp, p2, e2, true, Idle(), idle);
    var t4 := SpanDone(cp, p2 + [Idle()], e2 + [idle], s.postProfile);
    TailStamps(cp, s, p2 + [Idle()] + A.When(s.postProfile.Some?, Of(s.postProfile)),
               e2 + [idle] + SpanEvent(s.postProfile));
  }

  /** The end of the tail, behind whatever came before. */
  lemma TailStamps(cp: Cp, s: Submission, ps: seq<Packet>, es: seq<Event>)
    requires Exec(cp, ps).trace == cp.trace + es
    ensures var flags := if s.inContext then CACHE_FLUSH_TS else CACHE_FLUSH_TS + 0x8000_0000;
            Exec(cp, ps + A.When(s.inContext, Event(CACHE_FLUSH_TS + 0x8000_0000, s.at.ctxEop, s.timestamp))
                     + [Event(flags, s.at.rbEop, s.rbTimestamp)]
                     + [T3(CP_SET_CONSTANT, [KERNEL_GROUP_X, 0])]
                     + A.When(s.wfi, Idle())) ==
            Cp(Exec(cp, ps).prot, Exec(cp, ps).secure,
               cp.trace + (es + A.Do(s.inContext, Stamp(s.at.ctxEop, s.timestamp, true))
                              + [Stamp(s.at.rbEop, s.rbTimestamp, !s.inContext)]
                              + [Act(CP_SET_CONSTANT, [0x4_0215, 0])]
                              + A.Do(s.wfi, Act(CP_WAIT_FOR_IDLE, [0]))))
  {
    hide Step, Exec, EventsOf, Event;
    var loud := CACHE_FLUSH_TS + 0x8000_0000;
    var flags := if s.inContext then CACHE_FLUSH_TS else loud;
    var context, ring := Event(loud, s.at.ctxEop, s.timestamp), Event(flags, s.at.rbEop, s.rbTimestamp);
    var e, f := Stamp(s.at.ctxEop, s.timestamp, true), Stamp(s.at.rbEop, s.rbTimestamp, !s.inContext);
    StampEvents(loud, s.at.ctxEop, s.timestamp);
    StampEvents(flags, s.at.rbEop, s.rbTimestamp);
    var t1 := A.ExecMore(cp, ps, es, s.inContext, context, e);
    var p1, e1 := ps + A.When(s.inContext, context), es + A.Do(s.inContext, e);
    var t2 := A.ExecMore(cp, p1, e1, true, ring, f);
    PlainEvents(CP_SET_CONSTANT, [KERNEL_GROUP_X, 0]);
    var roll := T3(CP_SET_CONSTANT, [KERNEL_GROUP_X, 0]);
    var t3 := A.ExecMore(cp, p1 + [ring], e1 + [f], true, roll, Act(CP_SET_CONSTANT, [0x4_0215, 0]));
    PlainEvents(CP_WAIT_FOR_IDLE, [0]);
    var t4 := A.ExecMore(cp, p1 + [ring] + [roll], e1 + [f] + [Act(CP_SET_CONSTANT, [0x4_0215, 0])], s.wfi, Idle(),
                         Act(CP_WAIT_FOR_IDLE, [0]));
  }

  /** Started protected, a submission does its own events around those of the caller's packets, which
      run protected exactly when the submission has neither a fix-up nor unprotected commands. */
  lemma SubmissionRuns(s: Submission, body: seq<Packet>)
    ensures var mid := Exec(Cp(s.fixup.None? && !s.notProtected, false, HeadEvents(s)), body);
            Exec(Cp(true, false, []), SubmissionPackets(s, body)) ==
            Cp(s.notProtected || mid.prot, mid.secure, mid.trace + TailEvents(s))
  {
    hide Step, Exec, HeadPackets, TailPackets, HeadEvents, TailEvents;
    var cp := Cp(true, false, []);
    A.ExecAppend(cp, HeadPackets(s) + body, TailPackets(s));
    A.ExecAppend(cp, HeadPackets(s), body);
    ExecHead(s);
    ExecTail(Exec(cp, HeadPackets(s) + body), s);
  }
}
