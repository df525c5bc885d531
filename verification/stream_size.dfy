/** How many dwords the a5xx submissions have: the sizes that the GPU model's allocator is asked for. */
module StreamSize {
  import opened Wrappers
  import opened Pm4
  import opened RingSpace
  import opened A5xxStream
  import opened A5xxCommands
  import G = GpuModel
  import L = LostSwitch
  import M = StreamMeaning

  lemma CountWhen(ps: seq<Packet>, b: bool, p: Packet)
    ensures |Encode(ps + When(b, p))| == |Encode(ps)| + if b then 1 + |p.payload| else 0
  {
    if b {
      EncodeAppend(ps, [p]);
      EncodeOne(p);
    } else {
      assert ps + [] == ps;
    }
  }

  /** The packets of a list up to and including the one at `k`. */
  lemma CountTake(ps: seq<Packet>, k: nat)
    requires k < |ps|
    ensures |Encode(ps[..k + 1])| == |Encode(ps[..k])| + 1 + |ps[k].payload|
  {
    CountWhen(ps[..k], true, ps[k]);
    assert ps[..k + 1] == ps[..k] + [ps[k]];
  }

  lemma CountEnds(ps: seq<Packet>)
    ensures |Encode(ps[..0])| == 0 && ps[..|ps|] == ps
  {
  }

  lemma TableCount(table: u64, id: u32, scratch: u64)
    ensures |Encode(TablePackets(table, id, scratch))| == 18
  {
    hide Encode;
    var ps := TablePackets(table, id, scratch);
    CountEnds(ps);
    CountTake(ps, 0);
    CountTake(ps, 1);
    CountTake(ps, 2);
    CountTake(ps, 3);
    CountTake(ps, 4);
    CountTake(ps, 5);
    CountTake(ps, 6);
    CountTake(ps, 7);
  }

  /** The commands of a context switch have the dwords that the GPU model takes them to have. */
  lemma SwitchCount(active: Option<G.Ctx>, c: G.Ctx, default: u64, id: u32, at: Places)
    ensures |Encode(SwitchPackets(M.TableOf(active), c.table, default, id, at))| ==
            G.SwitchDwords(G.SwitchBody(active, c, default))
  {
    hide Encode, TablePackets;
    var ps := if ChangesTable(M.TableOf(active), c.table, default)
              then TablePackets(c.table, id, at.scratchTtbr0) else [];
    CountEnds([]);
    TableCount(c.table, id, at.scratchTtbr0);
    var p1 := ps + [Nop(CONTEXT_TO_MEM_IDENTIFIER)];
    CountWhen(ps, true, Nop(CONTEXT_TO_MEM_IDENTIFIER));
    CountWhen(p1, true, Write(at.rbCurrent, id));
    CountWhen(p1 + [Write(at.rbCurrent, id)], true, Write(at.globalCurrent, id));
    CountWhen(p1 + [Write(at.rbCurrent, id)] + [Write(at.globalCurrent, id)], true, T4(A5XX_UCHE_INVALIDATE0, [0x12]));
  }

  lemma PreCount(s: Submission)
    ensures |Encode(PrePackets(s))| == if s.preemption then 14 else 0
  {
    hide Encode;
    var ps := PrePackets(s);
    CountEnds(ps);
    if s.preemption {
      CountTake(ps, 0);
      CountTake(ps, 1);
      CountTake(ps, 2);
      CountTake(ps, 3);
      CountTake(ps, 4);
      CountTake(ps, 5);
      CountTake(ps, 6);
    }
  }

  function Dwords(b: bool, n: nat): nat { if b then n else 0 }

  lemma HeadCount(s: Submission)
    ensures |Encode(HeadPackets(s))| == 6 + Dwords(s.preemption, 14) + Dwords(s.preProfile.Some?, 4)
                                        + Dwords(s.context.Some?, 4) + Dwords(s.secure, 2) + Dwords(s.notProtected, 2)
  {
    hide Encode, PrePackets;
    var first := [Nop(if s.context.Some? then CMD_IDENTIFIER else CMD_INTERNAL_IDENTIFIER)];
    CountEnds(first);
    CountTake(first, 0);
    PreCount(s);
    EncodeAppend(first, PrePackets(s));
    var p2 := first + PrePackets(s);
    CountWhen(p2, s.preProfile.Some?, ProfileOr(s.preProfile));
    var p3 := p2 + ProfileIb(s.preProfile);
    CountWhen(p3, s.context.Some?, Write(s.at.ctxSop, s.timestamp));
    var p4 := p3 + When(s.context.Some?, Write(s.at.ctxSop, s.timestamp));
    CountWhen(p4, true, Write(s.at.rbSop, s.rbTimestamp));
    var p5 := p4 + [Write(s.at.rbSop, s.rbTimestamp)];
    CountWhen(p5, s.secure, Secure(1));
    CountWhen(p5 + When(s.secure, Secure(1)), s.notProtected, Protected(0));
  }

  lemma CloseCount(s: Submission)
    ensures |Encode(ClosePackets(s))| == 4 + Dwords(s.notProtected, 2) + Dwords(s.postProfile.Some?, 4)
                                         + Dwords(s.pageFaultHalt, 1)
  {
    hide Encode;
    CountEnds([]);
    CountWhen([], s.notProtected, Protected(1));
    var p1 := When(s.notProtected, Protected(1));
    assert [] + p1 == p1;
    CountWhen(p1, s.postProfile.Some?, ProfileOr(s.postProfile));
    var p2 := p1 + ProfileIb(s.postProfile);
    CountWhen(p2, s.pageFaultHalt, T7(CP_WAIT_MEM_WRITES, []));
    CountWhen(p2 + When(s.pageFaultHalt, T7(CP_WAIT_MEM_WRITES, [])), true, Write(s.at.refWait, s.sequence));
  }

  lemma RetireCount(s: Submission)
    ensures |Encode(RetirePackets(s))| == 5 + Dwords(s.context.Some?, 5) + Dwords(s.wfi, 1) + Dwords(s.secure, 2)
                                          + Dwords(s.preemption, 5)
  {
    hide Encode;
    var end := A5xxStream.Event(CACHE_FLUSH_TS + 0x8000_0000, s.at.ctxEop, s.timestamp);
    var p1 := When(s.context.Some?, end);
    CountEnds([]);
    CountWhen([], s.context.Some?, end);
    assert [] + p1 == p1;
    var stamp := A5xxStream.Event(if s.context.Some? then CACHE_FLUSH_TS else CACHE_FLUSH_TS + 0x8000_0000,
                       s.at.rbEop, s.rbTimestamp);
    CountWhen(p1, true, stamp);
    var p2 := p1 + [stamp];
    CountWhen(p2, s.wfi, T7(CP_WAIT_FOR_IDLE, []));
    var p3 := p2 + When(s.wfi, T7(CP_WAIT_FOR_IDLE, []));
    CountWhen(p3, s.secure, Secure(0));
    CountWhen(p3 + When(s.secure, Secure(0)), s.preemption, T7(CP_CONTEXT_SWITCH_YIELD, [0, 0, 1, 1]));
  }

  /** A submission has as many dwords beyond its caller's as its flags ask for, and OVERHEAD_MAX when they ask
      for everything. */
  lemma SubmissionCount(s: Submission, input: seq<u32>)
    ensures |SubmissionWords(s, input)| ==
            |input| + 15 + Dwords(s.preemption, 19) + Dwords(s.preProfile.Some?, 4) + Dwords(s.postProfile.Some?, 4)
            + Dwords(s.context.Some?, 9) + Dwords(s.secure, 4) + Dwords(s.notProtected, 4)
            + Dwords(s.pageFaultHalt, 1) + Dwords(s.wfi, 1)
    ensures |input| < |SubmissionWords(s, input)| <= OVERHEAD_MAX + |input|
  {
    hide Encode, HeadPackets, ClosePackets, RetirePackets;
    HeadCount(s);
    CloseCount(s);
    RetireCount(s);
  }

  /** An accepted submission arrives: whatever the ring holds besides, what the hardware has yet to read splits into the
      packets that were there, the NOP over the tail if the ring is gone round, the submission with the packets of its
      caller, and without preemption the report of the read offset. */
  lemma SubmissionArrives(rb: Ringbuffer, m: seq<u32>, rptr: nat, wptr: nat, s: Submission, input: seq<u32>,
                          rptrAddr: u64)
    requires |m| == RB_DWORDS && rptr < RB_DWORDS && wptr <= RB_DWORDS - 2 && !rb.legacy
    requires Alloc(wptr, rptr, SUBMIT_MAX + |input|) != NoSpace
    requires Parse(ToRead(m, rptr, wptr)).Some? && Parse(input).Some?
    ensures var space := Alloc(wptr, rptr, SUBMIT_MAX + |input|);
            var ws := SubmissionWords(s, input) + SyncWords(s, rptrAddr);
            && space.start + |ws| <= RB_DWORDS - 2
            && Parse(ToRead(Splice(rb.AfterAlloc(m, wptr, space.wrapped), space.start, ws), rptr, space.start + |ws|))
               == Some(Parse(ToRead(m, rptr, wptr)).value
                       + (if space.wrapped then [T7(CP_NOP, m[wptr + 1..])] else [])
                       + (SubmissionPackets(s, Parse(input).value)
                          + if s.preemption then [] else [WhereAmI(rptrAddr)]))
  {
    hide Parse, Encode, SubmissionWords, SubmissionPackets, SyncWords, Ringbuffer.AfterAlloc, ToRead, Splice;
    SubmissionCount(s, input);
    SubmissionIsWhole(s, input);
    SyncReports(s, rptrAddr);
    SyncCount(s, rptrAddr);
    ParseAppend(SubmissionWords(s, input), SyncWords(s, rptrAddr));
    rb.StreamGrows(m, wptr, rptr, SUBMIT_MAX + |input|, SubmissionWords(s, input) + SyncWords(s, rptrAddr));
  }

  lemma SyncCount(s: Submission, rptrAddr: u64)
    ensures |SyncWords(s, rptrAddr)| == if s.preemption then 0 else 3
  {
  }

  lemma {:induction false} NodesCount(ibs: seq<IbNode>, preamble: bool)
    requires forall ib :: ib in ibs ==> !Skipped(ib, preamble)
    ensures |Encode(NodePackets(ibs, preamble))| == 4 * |ibs|
  {
    hide Encode;
    if ibs == [] {
      CountEnds([]);
    } else {
      NodesCount(ibs[..|ibs| - 1], preamble);
      CountWhen(NodePackets(ibs[..|ibs| - 1], preamble), true, NodePacket(ibs[|ibs| - 1], preamble));
    }
  }

  /** A user command without profiling, none of whose buffers is skipped. */
  lemma CommandCount(k: Command)
    requires k.kernelProfile == k.userProfile == None && forall ib :: ib in Listed(k) ==> !Skipped(ib, k.preamble)
    ensures |Encode(CommandPackets(k))| == 12 + 4 * |Listed(k)|
  {
    hide Encode, NodePackets;
    var front, nodes, back := FrontPackets(k), NodePackets(Listed(k), k.preamble), BackPackets(k);
    NodesCount(Listed(k), k.preamble);
    EncodeAppend(front + nodes, back);
    EncodeAppend(front, nodes);
    assert front == [Nop(START_IB_IDENTIFIER)];
    CountEnds(front);
    CountTake(front, 0);
    assert back == [T7(CP_SET_RENDER_MODE, [0, 0, 0, 0, 0]), T7(CP_YIELD_ENABLE, [1]), Nop(END_IB_IDENTIFIER)];
    CountEnds(back);
    CountTake(back, 0);
    CountTake(back, 1);
    CountTake(back, 2);
  }

  /** The sizes in the run of LostSwitch are those of real submissions of a preempting device. */
  lemma SizesAreReal(s: Submission, k: Command, c: G.Ctx, active: Option<G.Ctx>, default: u64, id: u32)
    requires s.preemption && s.preProfile == s.postProfile == None && !s.secure && !s.pageFaultHalt && !s.wfi
    ensures var switch := Encode(SwitchPackets(M.TableOf(active), c.table, default, id, s.at));
            s.context == None && s.notProtected && G.SwitchBody(active, c, default) != [] ==>
              |switch| == 30 && |SubmissionWords(s, switch)| == L.SWITCH_USED
    ensures s.context.Some? && !s.notProtected && k.kernelProfile == k.userProfile == None
            && (forall ib :: ib in Listed(k) ==> !Skipped(ib, k.preamble)) ==>
              var words := Encode(CommandPackets(k));
              G.Size(|words|, |SubmissionWords(s, words)|) == L.CommandSize(|Listed(k)|)
  {
    hide Encode, SubmissionWords, SwitchPackets, CommandPackets;
    var switch := Encode(SwitchPackets(M.TableOf(active), c.table, default, id, s.at));
    SwitchCount(active, c, default, id, s.at);
    SubmissionCount(s, switch);
    if k.kernelProfile == k.userProfile == None && forall ib :: ib in Listed(k) ==> !Skipped(ib, k.preamble) {
      CommandCount(k);
      SubmissionCount(s, Encode(CommandPackets(k)));
    }
  }
}
