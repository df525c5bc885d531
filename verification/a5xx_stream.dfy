/** The a5xx command streams: submissions, context switches, and user commands. */
module A5xxStream {
  import opened Wrappers
  import opened Pm4
  import opened RingSpace

  /** A draw context as the stream builders see it. */
  datatype Context = Context(id: u32, secure: bool, style: nat)

  datatype Profile = Profile(addr: u64, dwords: u32)

  /** The memory locations a submission refers to. */
  datatype Places = Places(
    ctxSop: u64, ctxEop: u64, rbSop: u64, rbEop: u64, refWait: u64,
    rbCurrent: u64, globalCurrent: u64, scratchTtbr0: u64, record: u64)

  datatype Submission = Submission(
    context: Option<Context>,
    notProtected: bool,
    secure: bool,
    wfi: bool,
    preemption: bool,
    preProfile: Option<Profile>,
    postProfile: Option<Profile>,
    pageFaultHalt: bool,
    timestamp: u32,
    rbTimestamp: u32,
    sequence: u32,
    at: Places)

  const SUBMIT_MAX := 64
  // What a submission has at most beyond the caller's dwords; SUBMIT_MAX are reserved for it.
  const OVERHEAD_MAX := 61
  const CMD_IDENTIFIER: u32 := 0x2EEDFACE
  const CMD_INTERNAL_IDENTIFIER: u32 := 0x2EEDD00D
  const CONTEXT_TO_MEM_IDENTIFIER: u32 := 0x2EADBEEF
  const START_IB_IDENTIFIER: u32 := 0x2EADEABE
  const END_IB_IDENTIFIER: u32 := 0x2ABEDEAD
  const STYLE_RINGBUFFER := 1
  const STYLE_FINEGRAIN := 2
  const A5XX_CP_CNTL := 0x831
  const SAVE_ADDR_LO := 0x83E
  const SAVE_ADDR_HI := 0x83F
  const A5XX_UCHE_INVALIDATE0 := 0xE95

  function Nop(id: u32): Packet { T7(CP_NOP, [id]) }
  function Protected(on: u32): Packet { T7(CP_SET_PROTECTED_MODE, [on]) }
  function Secure(on: u32): Packet { T7(CP_SET_SECURE_MODE, [on]) }
  function Ib(addr: u64, dwords: u32): Packet {
    T7(CP_INDIRECT_BUFFER_PFE, [Lower32(addr), Upper32(addr), dwords])
  }
  function Write(addr: u64, value: u32): Packet {
    T7(CP_MEM_WRITE, [Lower32(addr), Upper32(addr), value])
  }
  function Event(flags: u32, addr: u64, value: u32): Packet {
    T7(CP_EVENT_WRITE, [flags, Lower32(addr), Upper32(addr), value])
  }

  /** Secure contexts are held to ring level; otherwise the context chooses. */
  function Finegrain(context: Option<Context>): bool {
    match context
    case None => false
    case Some(c) => (if c.secure then STYLE_RINGBUFFER else c.style) == STYLE_FINEGRAIN
  }

  function PrePackets(s: Submission): seq<Packet> {
    if !s.preemption then [] else
      [T7(CP_PREEMPT_ENABLE_GLOBAL, [if Finegrain(s.context) then 2 else 0]),
       Protected(0),
       T4(SAVE_ADDR_LO, [Lower32(s.at.record)]),
       T4(SAVE_ADDR_HI, [Upper32(s.at.record)]),
       Protected(1),
       T7(CP_PREEMPT_ENABLE_LOCAL, [if Finegrain(s.context) then 1 else 0]),
       T7(CP_YIELD_ENABLE, [2])]
  }

  function PostPackets(s: Submission): seq<Packet> {
    When(s.preemption, T7(CP_CONTEXT_SWITCH_YIELD, [0, 0, 1, 1]))
  }

  function When(c: bool, p: Packet): seq<Packet> { if c then [p] else [] }

  function ProfileOr(p: Option<Profile>): Packet {
    match p case None => Ib(0, 0) case Some(b) => Ib(b.addr, b.dwords)
  }

  function ProfileIb(p: Option<Profile>): seq<Packet> {
    When(p.Some?, ProfileOr(p))
  }

  /** What goes before the caller's commands, up to the start-of-pipe timestamp. */
  function Opening(s: Submission): seq<Packet> {
    [Nop(if s.context.Some? then CMD_IDENTIFIER else CMD_INTERNAL_IDENTIFIER)]
    + PrePackets(s)
    + ProfileIb(s.preProfile)
    + When(s.context.Some?, Write(s.at.ctxSop, s.timestamp))
    + [Write(s.at.rbSop, s.rbTimestamp)]
  }

  function HeadPackets(s: Submission): seq<Packet> {
    Opening(s) + When(s.secure, Secure(1)) + When(s.notProtected, Protected(0))
  }

  /** What goes right after them: protection, profiling, and the write that reveals storms. */
  function ClosePackets(s: Submission): seq<Packet> {
    When(s.notProtected, Protected(1))
    + ProfileIb(s.postProfile)
    + When(s.pageFaultHalt, T7(CP_WAIT_MEM_WRITES, []))
    + [Write(s.at.refWait, s.sequence)]
  }

  /** The end of a submission: retirement, idling, leaving secure mode, and the yield. */
  function RetirePackets(s: Submission): seq<Packet> {
    When(s.context.Some?, Event(CACHE_FLUSH_TS + 0x8000_0000, s.at.ctxEop, s.timestamp))
    + [Event(if s.context.Some? then CACHE_FLUSH_TS else CACHE_FLUSH_TS + 0x8000_0000,
             s.at.rbEop, s.rbTimestamp)]
    + When(s.wfi, T7(CP_WAIT_FOR_IDLE, []))
    + When(s.secure, Secure(0))
    + PostPackets(s)
  }

  function SubmissionPackets(s: Submission, body: seq<Packet>): seq<Packet> {
    HeadPackets(s) + body + ClosePackets(s) + RetirePackets(s)
  }

  lemma WhenFits(ps: seq<Packet>, c: bool, p: Packet)
    requires AllFit(ps) && (c ==> Fits(p))
    ensures AllFit(ps + When(c, p))
  {
  }

  lemma PreFits(s: Submission)
    ensures AllFit(PrePackets(s))
  {
  }

  lemma OpeningFits(s: Submission)
    ensures AllFit(Opening(s))
  {
    var first := [Nop(if s.context.Some? then CMD_IDENTIFIER else CMD_INTERNAL_IDENTIFIER)];
    assert AllFit(first);
    hide AllFit;
    PreFits(s);
    FitAppend(first, PrePackets(s));
    WhenFits(first + PrePackets(s), s.preProfile.Some?, ProfileOr(s.preProfile));
    var p := first + PrePackets(s) + ProfileIb(s.preProfile);
    WhenFits(p, s.context.Some?, Write(s.at.ctxSop, s.timestamp));
    WhenFits(p + When(s.context.Some?, Write(s.at.ctxSop, s.timestamp)), true, Write(s.at.rbSop, s.rbTimestamp));
  }

  lemma HeadFits(s: Submission)
    ensures AllFit(HeadPackets(s))
  {
    hide AllFit, Opening;
    OpeningFits(s);
    WhenFits(Opening(s), s.secure, Secure(1));
    WhenFits(Opening(s) + When(s.secure, Secure(1)), s.notProtected, Protected(0));
  }

  lemma TailFits(s: Submission)
    ensures AllFit(ClosePackets(s)) && AllFit(RetirePackets(s))
  {
    forall p | p in ClosePackets(s) ensures Fits(p) {}
    forall p | p in RetirePackets(s) ensures Fits(p) {}
  }

  /** The words of a whole submission around the caller's words. */
  function SubmissionWords(s: Submission, input: seq<u32>): seq<u32> {
    Encode(HeadPackets(s)) + input + Encode(ClosePackets(s)) + Encode(RetirePackets(s))
  }

  method PreIbSubmit(mem: array<u32>, ghost m: seq<u32>, ghost start: nat, at: nat, ghost ps: seq<Packet>,
                     s: Submission)
    returns (end: nat, ghost qs: seq<Packet>)
    requires at == start + |Encode(ps)| && at + 14 <= mem.Length == |m|
    requires mem[..] == Splice(m, start, Encode(ps))
    modifies mem
    ensures qs == ps + PrePackets(s) && at <= end <= at + 14 && end == start + |Encode(qs)|
    ensures mem[..] == Splice(m, start, Encode(qs))
  {
    hide Encode, Splice;
    end, qs := at, ps;
    if !s.preemption {
      assert ps + [] == ps;
      return;
    }
    var fine := Finegrain(s.context);
    end, qs := Emit(mem, m, start, end, qs, T7(CP_PREEMPT_ENABLE_GLOBAL, [if fine then 2 else 0]));
    end, qs := Emit(mem, m, start, end, qs, Protected(0));
    end, qs := Emit(mem, m, start, end, qs, T4(SAVE_ADDR_LO, [Lower32(s.at.record)]));
    end, qs := Emit(mem, m, start, end, qs, T4(SAVE_ADDR_HI, [Upper32(s.at.record)]));
    end, qs := Emit(mem, m, start, end, qs, Protected(1));
    end, qs := Emit(mem, m, start, end, qs, T7(CP_PREEMPT_ENABLE_LOCAL, [if fine then 1 else 0]));
    end, qs := Emit(mem, m, start, end, qs, T7(CP_YIELD_ENABLE, [2]));
    assert qs == ps + PrePackets(s);
  }

  /** Writes a packet if the condition holds. */
  method EmitWhen(mem: array<u32>, ghost m: seq<u32>, ghost start: nat, at: nat, ghost ps: seq<Packet>,
                  c: bool, p: Packet)
    returns (end: nat, ghost qs: seq<Packet>)
    requires at == start + |Encode(ps)| && at + 1 + |p.payload| <= mem.Length == |m|
    requires mem[..] == Splice(m, start, Encode(ps))
    modifies mem
    ensures qs == ps + When(c, p) && end == start + |Encode(qs)|
    ensures end == at + if c then 1 + |p.payload| else 0
    ensures mem[..] == Splice(m, start, Encode(qs))
  {
    end, qs := at, ps;
    if c {
      end, qs := Emit(mem, m, start, end, qs, p);
    } else {
      assert ps == ps + When(c, p);
    }
  }

  /** Writes everything before the caller's commands: at most 32 dwords. */
  method EmitHead(mem: array<u32>, start: nat, s: Submission) returns (end: nat)
    requires start + 32 <= mem.Length
    modifies mem
    ensures start < end == start + |Encode(HeadPackets(s))| <= start + 32
    ensures mem[..] == Splice(old(mem[..]), start, Encode(HeadPackets(s)))
  {
    hide Encode, Splice;
    ghost var m, ps: seq<Packet> := mem[..], [];
    SpliceNothing(m, start);
    var inUse := s.context.Some?;
    end, ps := Emit(mem, m, start, start, ps, Nop(if inUse then CMD_IDENTIFIER else CMD_INTERNAL_IDENTIFIER));
    assert ps == [Nop(if inUse then CMD_IDENTIFIER else CMD_INTERNAL_IDENTIFIER)];
    end, ps := PreIbSubmit(mem, m, start, end, ps, s);
    end, ps := EmitWhen(mem, m, start, end, ps, s.preProfile.Some?, ProfileOr(s.preProfile));
    end, ps := EmitWhen(mem, m, start, end, ps, inUse, Write(s.at.ctxSop, s.timestamp));
    end, ps := Emit(mem, m, start, end, ps, Write(s.at.rbSop, s.rbTimestamp));
    end, ps := EmitWhen(mem, m, start, end, ps, s.secure, Secure(1));
    end, ps := EmitWhen(mem, m, start, end, ps, s.notProtected, Protected(0));
    assert ps == HeadPackets(s);
  }

  method EmitClose(mem: array<u32>, start: nat, s: Submission) returns (end: nat)
    requires start + 11 <= mem.Length
    modifies mem
    ensures start <= end == start + |Encode(ClosePackets(s))| <= start + 11
    ensures mem[..] == Splice(old(mem[..]), start, Encode(ClosePackets(s)))
  {
    hide Encode, Splice;
    ghost var m, ps: seq<Packet> := mem[..], [];
    SpliceNothing(m, start);
    end, ps := EmitWhen(mem, m, start, start, ps, s.notProtected, Protected(1));
    assert ps == When(s.notProtected, Protected(1));
    end, ps := EmitWhen(mem, m, start, end, ps, s.postProfile.Some?, ProfileOr(s.postProfile));
    end, ps := EmitWhen(mem, m, start, end, ps, s.pageFaultHalt, T7(CP_WAIT_MEM_WRITES, []));
    end, ps := Emit(mem, m, start, end, ps, Write(s.at.refWait, s.sequence));
  }

  method EmitRetire(mem: array<u32>, start: nat, s: Submission) returns (end: nat)
    requires start + 18 <= mem.Length
    modifies mem
    ensures start <= end == start + |Encode(RetirePackets(s))| <= start + 18
    ensures mem[..] == Splice(old(mem[..]), start, Encode(RetirePackets(s)))
  {
    hide Encode, Splice;
    ghost var m, ps: seq<Packet> := mem[..], [];
    SpliceNothing(m, start);
    var inUse := s.context.Some?;
    end, ps := EmitWhen(mem, m, start, start, ps, inUse,
                        Event(CACHE_FLUSH_TS + 0x8000_0000, s.at.ctxEop, s.timestamp));
    assert ps == When(inUse, Event(CACHE_FLUSH_TS + 0x8000_0000, s.at.ctxEop, s.timestamp));
    end, ps := Emit(mem, m, start, end, ps,
                    Event(if inUse then CACHE_FLUSH_TS else CACHE_FLUSH_TS + 0x8000_0000, s.at.rbEop, s.rbTimestamp));
    end, ps := EmitWhen(mem, m, start, end, ps, s.wfi, T7(CP_WAIT_FOR_IDLE, []));
    end, ps := EmitWhen(mem, m, start, end, ps, s.secure, Secure(0));
    end, ps := EmitWhen(mem, m, start, end, ps, s.preemption, T7(CP_CONTEXT_SWITCH_YIELD, [0, 0, 1, 1]));
  }

  /** Writes a whole submission at an offset: at most OVERHEAD_MAX dwords beyond the caller's. */
  method WriteSubmission(mem: array<u32>, start: nat, s: Submission, input: seq<u32>) returns (end: nat)
    requires start + SUBMIT_MAX + |input| <= mem.Length
    modifies mem
    ensures end == start + |SubmissionWords(s, input)| <= start + OVERHEAD_MAX + |input|
    ensures start < end
    ensures mem[..] == Splice(old(mem[..]), start, SubmissionWords(s, input))
  {
    hide Encode, Splice, HeadPackets, ClosePackets, RetirePackets;
    ghost var m, head, close := mem[..], Encode(HeadPackets(s)), Encode(ClosePackets(s));
    end := EmitHead(mem, start, s);
    end := Copy(mem, end, input);
    SpliceSplice(m, start, head, input);
    end := EmitClose(mem, end, s);
    SpliceSplice(m, start, head + input, close);
    end := EmitRetire(mem, end, s);
    SpliceSplice(m, start, head + input + close, Encode(RetirePackets(s)));
  }

  function WhereAmI(rptrAddr: u64): Packet { T7(CP_WHERE_AM_I, [Lower32(rptrAddr), Upper32(rptrAddr)]) }

  /** Hands the written words over, behind a read-pointer update when preemption is off. The hardware is told
      only if no switch is being made and it is on this ring. */
  method Submit(rb: Ringbuffer, sync: bool, rptr: nat, rptrAddr: u64, resting: bool, current: bool, reg: Register)
    returns (ret: Ret)
    requires rb.Valid() && rptr < RB_DWORDS && !rb.legacy
    modifies rb, rb.mem, reg
    ensures rb.Valid() && rb.timestamp == old(rb.timestamp)
    ensures reg.value == if ret == Ok && resting && current then rb.wptr else old(reg.value)
    ensures ret == Ok ==> rb.Published()
    ensures !sync ==> ret == Ok && rb.wptr == old(rb.wptrNext) && rb.mem[..] == old(rb.mem[..])
    ensures sync ==>
      match Alloc(old(rb.wptrNext), rptr, 3)
      case NoSpace =>
        ret == NoSpc && rb.wptrNext == old(rb.wptrNext) && rb.wptr == old(rb.wptr) && rb.mem[..] == old(rb.mem[..])
      case Space(start, end, wrapped) =>
        && ret == Ok && rb.wptr == end && start + 3 <= RB_DWORDS
        && rb.mem[..] == Splice(rb.AfterAlloc(old(rb.mem[..]), old(rb.wptrNext), wrapped), start,
                                Words(WhereAmI(rptrAddr)))
  {
    if sync {
      var slot := rb.AllocSpace(rptr, 3);
      if slot.None? { return NoSpc; }
      var end := Copy(rb.mem, slot.value, Words(WhereAmI(rptrAddr)));
    }
    if resting && current { reg.value := rb.wptrNext; }
    rb.wptr := rb.wptrNext;
    ret := Ok;
  }

  lemma AllocEnds(wptr: nat, rptr: nat, dwords: nat)
    requires rptr < RB_DWORDS && wptr <= RB_DWORDS - 2 && dwords > 0
    ensures match Alloc(wptr, rptr, dwords)
            case NoSpace => true
            case Space(start, end, wrapped) => end == start + dwords <= RB_DWORDS - 2
  {
    AllocIsSafe(wptr, rptr, dwords);
  }

  /** The stream of a submission in its slot, and the write offset just behind it. */
  method Place(rb: Ringbuffer, rptr: nat, s: Submission, input: seq<u32>) returns (placed: bool)
    requires rb.Valid() && rptr < RB_DWORDS && !rb.legacy
    modifies rb`wptrNext, rb.mem
    ensures rb.Valid()
    ensures placed == (Alloc(old(rb.wptrNext), rptr, SUBMIT_MAX + |input|) != NoSpace)
    ensures !placed ==> rb.wptrNext == old(rb.wptrNext) && rb.mem[..] == old(rb.mem[..])
    ensures placed ==>
      var space := Alloc(old(rb.wptrNext), rptr, SUBMIT_MAX + |input|);
      var ws := SubmissionWords(s, input);
      && 0 < |ws| <= OVERHEAD_MAX + |input|
      && rb.wptrNext == space.start + |ws| <= space.wptr <= RB_DWORDS - 2
      && rb.mem[..] == Splice(rb.AfterAlloc(old(rb.mem[..]), old(rb.wptrNext), space.wrapped), space.start, ws)
  {
    hide Encode, Splice, SubmissionWords, Alloc;
    var size := SUBMIT_MAX + |input|;
    AllocEnds(rb.wptrNext, rptr, size);
    var slot := rb.AllocSpace(rptr, size);
    if slot.None? { return false; }
    var end := WriteSubmission(rb.mem, slot.value, s, input);
    rb.wptrNext := rb.wptrNext - (size - (end - slot.value));
    placed := true;
  }

  /** What follows the stream of a submission: without preemption, a read-pointer update. */
  function SyncWords(s: Submission, rptrAddr: u64): seq<u32> { if s.preemption then [] else Words(WhereAmI(rptrAddr)) }

  /** It tells the GPU to report how far it has read, to the address it is given. */
  lemma SyncReports(s: Submission, rptrAddr: u64)
    ensures var ps := if s.preemption then [] else [WhereAmI(rptrAddr)];
            && Parse(SyncWords(s, rptrAddr)) == Some(ps)
            && FlatMap(EventsOf, ps) == if s.preemption then [] else [ReportRptr(rptrAddr)]
  {
    SplitJoin64(rptrAddr);
    hide Parse, Encode;
    var p := WhereAmI(rptrAddr);
    EncodeOne(p);
    FlatMapOne(EventsOf, p);
    SpliceNothing([], 0);
    ParseEncode(if s.preemption then [] else [p]);
  }

  lemma SyncFollows(rb: Ringbuffer, m: seq<u32>, from: nat, space: Space, ws: seq<u32>, s: Submission, rptrAddr: u64)
    requires |m| == RB_DWORDS && from <= RB_DWORDS - 2 && space.Space? && space.start + |ws| + 3 <= RB_DWORDS
    ensures |SyncWords(s, rptrAddr)| == if s.preemption then 0 else 3
    ensures var placed := Splice(rb.AfterAlloc(m, from, space.wrapped), space.start, ws);
            var sync := SyncWords(s, rptrAddr);
            && |placed| == RB_DWORDS
            && (if s.preemption then placed else Splice(placed, space.start + |ws|, sync)) ==
               Splice(rb.AfterAlloc(m, from, space.wrapped), space.start, ws + sync)
  {
    SpliceSplice(rb.AfterAlloc(m, from, space.wrapped), space.start, ws, SyncWords(s, rptrAddr));
    assert ws + [] == ws;
  }

  /** One submission: a slot of SUBMIT_MAX + dwords is taken, the stream is written at its start, and the
      offset is moved back to just after the last dword. The timestamp advances even when there is no space.
      Without preemption a read-pointer update follows, right behind, however far the hardware has read
      since. What is accepted is handed over, what is refused leaves no dword in the ring. */
  method AddCmds(rb: Ringbuffer, detached: bool, fault: bool, rptr: nat, s: Submission, input: seq<u32>,
                 syncRptr: nat, rptrAddr: u64, resting: bool, current: bool, reg: Register)
    returns (ret: Ret)
    requires rb.Valid() && rb.Published() && rptr < RB_DWORDS && !rb.legacy
    requires OnWay(rptr, rb.wptr, syncRptr)
    requires s.rbTimestamp == (rb.timestamp + 1) % 0x1_0000_0000
    modifies rb, rb.mem, reg
    ensures rb.Valid() && rb.Published()
    ensures ret == if s.context.Some? && detached then NoEntry
                   else if fault then Protocol
                   else if Alloc(old(rb.wptr), rptr, SUBMIT_MAX + |input|) == NoSpace then NoSpc
                   else Ok
    ensures rb.timestamp == if ret in {NoEntry, Protocol} then old(rb.timestamp) else s.rbTimestamp
    ensures ret != Ok ==> rb.wptr == old(rb.wptr) && rb.mem[..] == old(rb.mem[..])
    ensures ret == Ok ==>
      var space := Alloc(old(rb.wptr), rptr, SUBMIT_MAX + |input|);
      var ws := SubmissionWords(s, input) + SyncWords(s, rptrAddr);
      && rb.wptr == space.start + |ws| <= space.wptr <= RB_DWORDS - 2
      && rb.mem[..] == Splice(rb.AfterAlloc(old(rb.mem[..]), old(rb.wptr), space.wrapped), space.start, ws)
    ensures reg.value == if ret == Ok && resting && current then rb.wptr else old(reg.value)
  {
    hide Encode, Splice, SubmissionWords, WhereAmI, Words, Alloc;
    if s.context.Some? && detached { return NoEntry; }
    if fault { return Protocol; }
    rb.timestamp := (rb.timestamp + 1) % 0x1_0000_0000;
    var size := SUBMIT_MAX + |input|;
    AllocEnds(rb.wptrNext, rptr, size);
    var placed := Place(rb, rptr, s, input);
    if !placed { return NoSpc; }
    ghost var ws := SubmissionWords(s, input);
    RestIsFree(old(rb.wptr), rptr, size, |ws|, 3, syncRptr);
    // The result of the hand-over is not looked at.
    var handed := Submit(rb, !s.preemption, syncRptr, rptrAddr, resting, current, reg);
    SyncFollows(rb, old(rb.mem[..]), old(rb.wptr), Alloc(old(rb.wptr), rptr, size), ws, s, rptrAddr);
    ret := Ok;
  }

  /** A submission around any whole payload is whole, and says exactly what its packets say. */
  lemma SubmissionIsWhole(s: Submission, input: seq<u32>)
    requires Parse(input).Some?
    ensures Parse(SubmissionWords(s, input)) == Some(SubmissionPackets(s, Parse(input).value))
  {
    hide HeadPackets, ClosePackets, RetirePackets, Encode, Parse;
    HeadFits(s);
    TailFits(s);
    ParseEncode(HeadPackets(s));
    ParseEncode(ClosePackets(s));
    ParseEncode(RetirePackets(s));
    var head, close := Encode(HeadPackets(s)), Encode(ClosePackets(s));
    ParseAppend(head, input);
    ParseAppend(head + input, close);
    ParseAppend(head + input + close, Encode(RetirePackets(s)));
  }

  function Do(c: bool, e: Event): seq<Event> { if c then [e] else [] }

  function ProfileEvent(p: Option<Profile>): seq<Event> {
    match p case None => [] case Some(b) => [IndirectBuffer(b.addr, b.dwords)]
  }

  /** On a preempting device, before anything else: a context that asks for fine-grained preemption and is not
      secure gets it, any other is held to the ring, and the ring's record is named with protection off. */
  function PreambleEvents(s: Submission): seq<Event> {
    if !s.preemption then []
    else
      var fine := s.context.Some? && !s.context.value.secure && s.context.value.style == STYLE_FINEGRAIN;
      [PreemptGlobal(if fine then 2 else 0),
       Mode(CP_SET_PROTECTED_MODE, false),
       RegWrite(SAVE_ADDR_LO, s.at.record % 0x1_0000_0000),
       RegWrite(SAVE_ADDR_HI, s.at.record / 0x1_0000_0000),
       Mode(CP_SET_PROTECTED_MODE, true),
       PreemptLocal(if fine then 1 else 0),
       Act(CP_YIELD_ENABLE, [2])]
  }

  function OpeningEvents(s: Submission): seq<Event> {
    [Mark(if s.context.Some? then 0x2EED_FACE else 0x2EED_D00D)]
    + PreambleEvents(s)
    + ProfileEvent(s.preProfile)
    + Do(s.context.Some?, MemWrite(s.at.ctxSop, [s.timestamp]))
    + [MemWrite(s.at.rbSop, [s.rbTimestamp])]
  }

  /** What a submission does before the caller's commands. */
  function HeadEvents(s: Submission): seq<Event> {
    OpeningEvents(s)
    + Do(s.secure, Mode(CP_SET_SECURE_MODE, true))
    + Do(s.notProtected, Mode(CP_SET_PROTECTED_MODE, false))
  }

  function CloseEvents(s: Submission): seq<Event> {
    Do(s.notProtected, Mode(CP_SET_PROTECTED_MODE, true))
    + ProfileEvent(s.postProfile)
    + Do(s.pageFaultHalt, Act(CP_WAIT_MEM_WRITES, []))
    + [MemWrite(s.at.refWait, [s.sequence])]
  }

  /** The end stamp that interrupts is the context's, or the ring's when there is no context. */
  function RetireEvents(s: Submission): seq<Event> {
    Do(s.context.Some?, Stamp(s.at.ctxEop, s.timestamp, true))
    + [Stamp(s.at.rbEop, s.rbTimestamp, s.context.None?)]
    + Do(s.wfi, Act(CP_WAIT_FOR_IDLE, []))
    + Do(s.secure, Mode(CP_SET_SECURE_MODE, false))
    + Do(s.preemption, Yield(0, 1, true))
  }

  /** What it does after them. */
  function TailEvents(s: Submission): seq<Event> {
    CloseEvents(s) + RetireEvents(s)
  }

  lemma ModeEvents(on: u32)
    ensures EventsOf(Protected(on)) == [Mode(CP_SET_PROTECTED_MODE, on != 0)]
    ensures EventsOf(Secure(on)) == [Mode(CP_SET_SECURE_MODE, on != 0)]
  {
  }

  lemma WriteEvents(addr: u64, value: u32)
    ensures EventsOf(Write(addr, value)) == [MemWrite(addr, [value])]
  {
    SplitJoin64(addr);
  }

  lemma IbEvents(addr: u64, size: u32)
    ensures EventsOf(Ib(addr, size)) == [IndirectBuffer(addr, size)]
  {
    SplitJoin64(addr);
  }

  lemma StampEvents(flags: u32, addr: u64, value: u32)
    requires flags == CACHE_FLUSH_TS || flags == CACHE_FLUSH_TS + 0x8000_0000
    ensures EventsOf(Event(flags, addr, value)) == [Stamp(addr, value, flags != CACHE_FLUSH_TS)]
  {
    SplitJoin64(addr);
  }

  lemma RegisterEvents(reg: nat, value: u32)
    ensures EventsOf(T4(reg, [value])) == [RegWrite(reg, value)]
  {
    assert RegWrites(reg, [value]) == [RegWrite(reg, value)] + RegWrites(reg + 1, [value][1..]);
  }

  lemma LevelEvents(level: u32)
    ensures EventsOf(T7(CP_PREEMPT_ENABLE_GLOBAL, [level])) == [PreemptGlobal(level)]
    ensures EventsOf(T7(CP_PREEMPT_ENABLE_LOCAL, [level])) == [PreemptLocal(level)]
  {
  }

  /** Waits and settings. */
  predicate Plain(op: nat) {
    || op == CP_YIELD_ENABLE || op == CP_WAIT_MEM_WRITES || op == CP_WAIT_FOR_IDLE || op == CP_WAIT_FOR_ME
    || op == CP_SET_RENDER_MODE
  }

  lemma PlainEvents(op: nat, ws: seq<u32>)
    requires Plain(op)
    ensures EventsOf(T7(op, ws)) == [Act(op, ws)]
  {
  }

  lemma YieldEvents()
    ensures EventsOf(T7(CP_CONTEXT_SWITCH_YIELD, [0, 0, 1, 1])) == [Yield(0, 1, true)]
  {
  }

  lemma MarkEvents(id: u32)
    ensures EventsOf(Nop(id)) == [Mark(id)]
  {
  }

  lemma StepNop(cp: Cp, ws: seq<u32>)
    requires |ws| != 1
    ensures Step(cp, T7(CP_NOP, ws)) == cp
  {
  }

  lemma ExecAppend(cp: Cp, ps: seq<Packet>, qs: seq<Packet>)
    ensures Exec(cp, ps + qs) == Exec(Exec(cp, ps), qs)
  {
    FoldAppend(Step, cp, ps, qs);
  }

  lemma ExecNone(cp: Cp)
    ensures Exec(cp, []) == cp
  {
  }

  lemma ExecOne(cp: Cp, p: Packet)
    ensures Exec(cp, [p]) == Step(cp, p)
  {
    FoldOne(Step, cp, p);
  }

  lemma ExecWhen(cp: Cp, ps: seq<Packet>, c: bool, p: Packet)
    ensures Exec(cp, ps + When(c, p)) == if c then Step(Exec(cp, ps), p) else Exec(cp, ps)
  {
    FoldAppend(Step, cp, ps, When(c, p));
    if c { FoldOne(Step, Exec(cp, ps), p); }
  }

  /** One more packet, if the condition holds: what it does comes last, and it may set a mode. */
  lemma ExecMore(cp: Cp, ps: seq<Packet>, es: seq<Event>, c: bool, p: Packet, e: Event) returns (t: Cp)
    requires Exec(cp, ps).trace == cp.trace + es && (c ==> EventsOf(p) == [e])
    ensures t == Exec(cp, ps + When(c, p)) && t.trace == cp.trace + (es + Do(c, e))
    ensures t.prot == if c && SetsMode(p, CP_SET_PROTECTED_MODE) then p.payload[0] != 0 else Exec(cp, ps).prot
    ensures t.secure == if c && SetsMode(p, CP_SET_SECURE_MODE) then p.payload[0] != 0 else Exec(cp, ps).secure
  {
    hide EventsOf, Exec;
    ExecWhen(cp, ps, c, p);
    t := Exec(cp, ps + When(c, p));
    RegroupAll(cp.trace, es, Do(c, e));
    assert es + [] == es;
  }

  lemma NothingDone(cp: Cp)
    ensures Exec(cp, []) == cp && cp.trace == cp.trace + []
  {
  }

  lemma NothingFirst<T>(xs: seq<T>)
    ensures [] + xs == xs
  {
  }

  lemma SevenOf<T>(a: T, b: T, c: T, d: T, e: T, f: T, g: T)
    ensures [] + [a] + [b] + [c] + [d] + [e] + [f] + [g] == [a, b, c, d, e, f, g]
  {
  }

  /** The save address is written with protection off, and protection is back on afterwards. */
  lemma ExecPre(cp: Cp, s: Submission)
    requires cp.prot
    ensures Exec(cp, PrePackets(s)) == cp.(trace := cp.trace + PreambleEvents(s))
  {
    hide Step, Exec, EventsOf;
    NothingDone(cp);
    if s.preemption {
      var ps, es := PrePackets(s), PreambleEvents(s);
      LevelEvents(if Finegrain(s.context) then 2 else 0);
      LevelEvents(if Finegrain(s.context) then 1 else 0);
      ModeEvents(0);
      ModeEvents(1);
      RegisterEvents(SAVE_ADDR_LO, Lower32(s.at.record));
      RegisterEvents(SAVE_ADDR_HI, Upper32(s.at.record));
      PlainEvents(CP_YIELD_ENABLE, [2]);
      ExecSeven(cp, ps, es);
    }
  }

  /** Seven packets, each with its event; the second and the fifth set protection. */
  lemma ExecSeven(cp: Cp, ps: seq<Packet>, es: seq<Event>)
    requires |ps| == |es| == 7 && forall i :: 0 <= i < 7 ==> EventsOf(ps[i]) == [es[i]]
    requires ps[4] == Protected(1)
    requires forall i :: 0 <= i < 7 ==> !SetsMode(ps[i], CP_SET_SECURE_MODE)
    requires !SetsMode(ps[5], CP_SET_PROTECTED_MODE) && !SetsMode(ps[6], CP_SET_PROTECTED_MODE)
    ensures Exec(cp, ps) == cp.(prot := true, trace := cp.trace + es)
  {
    hide Step, Exec, EventsOf;
    NothingDone(cp);
    var p1, e1 := [] + [ps[0]], [] + [es[0]];
    var p2, e2 := p1 + [ps[1]], e1 + [es[1]];
    var p3, e3 := p2 + [ps[2]], e2 + [es[2]];
    var p4, e4 := p3 + [ps[3]], e3 + [es[3]];
    var p5, e5 := p4 + [ps[4]], e4 + [es[4]];
    var p6, e6 := p5 + [ps[5]], e5 + [es[5]];
    var t1 := ExecMore(cp, [], [], true, ps[0], es[0]);
    var t2 := ExecMore(cp, p1, e1, true, ps[1], es[1]);
    var t3 := ExecMore(cp, p2, e2, true, ps[2], es[2]);
    var t4 := ExecMore(cp, p3, e3, true, ps[3], es[3]);
    var t5 := ExecMore(cp, p4, e4, true, ps[4], es[4]);
    var t6 := ExecMore(cp, p5, e5, true, ps[5], es[5]);
    var t7 := ExecMore(cp, p6, e6, true, ps[6], es[6]);
    SevenOf(ps[0], ps[1], ps[2], ps[3], ps[4], ps[5], ps[6]);
    SevenOf(es[0], es[1], es[2], es[3], es[4], es[5], es[6]);
    assert ps == [ps[0], ps[1], ps[2], ps[3], ps[4], ps[5], ps[6]];
    assert es == [es[0], es[1], es[2], es[3], es[4], es[5], es[6]];
  }

  lemma ProfileDone(cp: Cp, ps: seq<Packet>, es: seq<Event>, p: Option<Profile>) returns (t: Cp)
    requires Exec(cp, ps).trace == cp.trace + es
    ensures t == Exec(cp, ps + ProfileIb(p)) && t.trace == cp.trace + (es + ProfileEvent(p))
    ensures t.prot == Exec(cp, ps).prot && t.secure == Exec(cp, ps).secure
  {
    hide Step, Exec, EventsOf;
    var b := if p.Some? then p.value else Profile(0, 0);
    IbEvents(b.addr, b.dwords);
    t := ExecMore(cp, ps, es, p.Some?, ProfileOr(p), IndirectBuffer(b.addr, b.dwords));
  }

  lemma ExecOpening(cp: Cp, s: Submission)
    requires cp.prot
    ensures Exec(cp, Opening(s)) == cp.(trace := cp.trace + OpeningEvents(s))
  {
    hide Step, Exec, EventsOf, Write, PrePackets, PreambleEvents, ProfileIb, ProfileEvent;
    var id := if s.context.Some? then CMD_IDENTIFIER else CMD_INTERNAL_IDENTIFIER;
    var p1, e1 := [Nop(id)], [Mark(id)];
    var t1 := MarkFirst(cp, id);
    var p2, e2 := p1 + PrePackets(s), e1 + PreambleEvents(s);
    ExecAppend(cp, p1, PrePackets(s));
    ExecPre(t1, s);
    RegroupAll(cp.trace, e1, PreambleEvents(s));
    var t2 := ProfileDone(cp, p2, e2, s.preProfile);
    var p3, e3 := p2 + ProfileIb(s.preProfile), e2 + ProfileEvent(s.preProfile);
    WriteEvents(s.at.ctxSop, s.timestamp);
    WriteEvents(s.at.rbSop, s.rbTimestamp);
    WriteIsModeless(s.at.ctxSop, s.timestamp);
    WriteIsModeless(s.at.rbSop, s.rbTimestamp);
    var t3 := ExecMore(cp, p3, e3, s.context.Some?, Write(s.at.ctxSop, s.timestamp),
                       MemWrite(s.at.ctxSop, [s.timestamp]));
    var p4 := p3 + When(s.context.Some?, Write(s.at.ctxSop, s.timestamp));
    var e4 := e3 + Do(s.context.Some?, MemWrite(s.at.ctxSop, [s.timestamp]));
    var t4 := ExecMore(cp, p4, e4, true, Write(s.at.rbSop, s.rbTimestamp), MemWrite(s.at.rbSop, [s.rbTimestamp]));
  }

  lemma MarkFirst(cp: Cp, id: u32) returns (t: Cp)
    ensures t == Exec(cp, [Nop(id)]) == cp.(trace := cp.trace + [Mark(id)])
  {
    hide Step, Exec, EventsOf;
    NothingDone(cp);
    MarkEvents(id);
    t := ExecMore(cp, [], [], true, Nop(id), Mark(id));
    NothingFirst([Nop(id)]);
    NothingFirst([Mark(id)]);
  }

  lemma WriteIsModeless(addr: u64, value: u32)
    ensures !SetsMode(Write(addr, value), CP_SET_PROTECTED_MODE) && !SetsMode(Write(addr, value), CP_SET_SECURE_MODE)
  {
  }

  lemma ExecHead(s: Submission)
    ensures Exec(Cp(true, false, []), HeadPackets(s)) == Cp(!s.notProtected, s.secure, HeadEvents(s))
  {
    hide Step, Exec, EventsOf, Opening, OpeningEvents;
    var cp := Cp(true, false, []);
    ExecOpening(cp, s);
    ModeEvents(0);
    ModeEvents(1);
    var t1 := ExecMore(cp, Opening(s), OpeningEvents(s), s.secure, Secure(1), Mode(CP_SET_SECURE_MODE, true));
    var p := Opening(s) + When(s.secure, Secure(1));
    var e := OpeningEvents(s) + Do(s.secure, Mode(CP_SET_SECURE_MODE, true));
    var t2 := ExecMore(cp, p, e, s.notProtected, Protected(0), Mode(CP_SET_PROTECTED_MODE, false));
    NothingFirst(HeadEvents(s));
  }

  lemma ExecClose(cp: Cp, s: Submission)
    ensures Exec(cp, ClosePackets(s)) == Cp(s.notProtected || cp.prot, cp.secure, cp.trace + CloseEvents(s))
  {
    hide Step, Exec, EventsOf, Write, ProfileIb, ProfileEvent;
    NothingDone(cp);
    ModeEvents(1);
    var t1 := ExecMore(cp, [], [], s.notProtected, Protected(1), Mode(CP_SET_PROTECTED_MODE, true));
    var p1, e1 := When(s.notProtected, Protected(1)), Do(s.notProtected, Mode(CP_SET_PROTECTED_MODE, true));
    NothingFirst(p1);
    NothingFirst(e1);
    var t2 := ProfileDone(cp, p1, e1, s.postProfile);
    var p2, e2 := p1 + ProfileIb(s.postProfile), e1 + ProfileEvent(s.postProfile);
    PlainEvents(CP_WAIT_MEM_WRITES, []);
    var t3 := ExecMore(cp, p2, e2, s.pageFaultHalt, T7(CP_WAIT_MEM_WRITES, []), Act(CP_WAIT_MEM_WRITES, []));
    var p3 := p2 + When(s.pageFaultHalt, T7(CP_WAIT_MEM_WRITES, []));
    var e3 := e2 + Do(s.pageFaultHalt, Act(CP_WAIT_MEM_WRITES, []));
    WriteEvents(s.at.refWait, s.sequence);
    WriteIsModeless(s.at.refWait, s.sequence);
    var t4 := ExecMore(cp, p3, e3, true, Write(s.at.refWait, s.sequence), MemWrite(s.at.refWait, [s.sequence]));
  }

  lemma ExecRetire(cp: Cp, s: Submission)
    ensures Exec(cp, RetirePackets(s)) == Cp(cp.prot, !s.secure && cp.secure, cp.trace + RetireEvents(s))
  {
    hide Step, Exec, EventsOf, Event;
    NothingDone(cp);
    var inUse := s.context.Some?;
    var loud := CACHE_FLUSH_TS + 0x8000_0000;
    var flags := if inUse then CACHE_FLUSH_TS else loud;
    var context, ring := Event(loud, s.at.ctxEop, s.timestamp), Event(flags, s.at.rbEop, s.rbTimestamp);
    var e, f := Stamp(s.at.ctxEop, s.timestamp, true), Stamp(s.at.rbEop, s.rbTimestamp, s.context.None?);
    StampEvents(loud, s.at.ctxEop, s.timestamp);
    StampEvents(flags, s.at.rbEop, s.rbTimestamp);
    StampIsModeless(loud, s.at.ctxEop, s.timestamp);
    StampIsModeless(flags, s.at.rbEop, s.rbTimestamp);
    var t1 := ExecMore(cp, [], [], inUse, context, e);
    var p1, e1 := When(inUse, context), Do(inUse, e);
    NothingFirst(p1);
    NothingFirst(e1);
    var t2 := ExecMore(cp, p1, e1, true, ring, f);
    PlainEvents(CP_WAIT_FOR_IDLE, []);
    var t3 := ExecMore(cp, p1 + [ring], e1 + [f], s.wfi, T7(CP_WAIT_FOR_IDLE, []), Act(CP_WAIT_FOR_IDLE, []));
    var p3 := p1 + [ring] + When(s.wfi, T7(CP_WAIT_FOR_IDLE, []));
    var e3 := e1 + [f] + Do(s.wfi, Act(CP_WAIT_FOR_IDLE, []));
    ModeEvents(0);
    var t4 := ExecMore(cp, p3, e3, s.secure, Secure(0), Mode(CP_SET_SECURE_MODE, false));
    YieldEvents();
    var t5 := ExecMore(cp, p3 + When(s.secure, Secure(0)), e3 + Do(s.secure, Mode(CP_SET_SECURE_MODE, false)),
                       s.preemption, T7(CP_CONTEXT_SWITCH_YIELD, [0, 0, 1, 1]), Yield(0, 1, true));
  }

  lemma StampIsModeless(flags: u32, addr: u64, value: u32)
    ensures var p := Event(flags, addr, value);
            !SetsMode(p, CP_SET_PROTECTED_MODE) && !SetsMode(p, CP_SET_SECURE_MODE)
  {
  }

  /** Started protected and unsecured, a submission runs the caller's packets in the modes its flags
      ask for and in between exactly its own events; it ends unsecured, and protected, unless it was
      the caller's packets that left a mode the submission did not set itself. */
  lemma SubmissionRuns(s: Submission, body: seq<Packet>)
    ensures var mid := Exec(Cp(!s.notProtected, s.secure, HeadEvents(s)), body);
            Exec(Cp(true, false, []), SubmissionPackets(s, body)) ==
            Cp(s.notProtected || mid.prot, !s.secure && mid.secure, mid.trace + TailEvents(s))
  {
    hide Step, Exec, HeadPackets, ClosePackets, RetirePackets, HeadEvents, CloseEvents, RetireEvents;
    var cp := Cp(true, false, []);
    var head, close, retire := HeadPackets(s), ClosePackets(s), RetirePackets(s);
    ExecAppend(cp, head + body + close, retire);
    ExecAppend(cp, head + body, close);
    ExecAppend(cp, head, body);
    ExecHead(s);
    var mid := Exec(cp, head + body);
    ExecClose(mid, s);
    ExecRetire(Exec(mid, close), s);
    RegroupAll(mid.trace, CloseEvents(s), RetireEvents(s));
  }
}
