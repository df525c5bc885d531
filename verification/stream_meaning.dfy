/** The command streams of the a5xx mean what the GPU model puts on its rings. */
module StreamMeaning {
  import opened Wrappers
  import opened Pm4
  import opened A5xxStream
  import opened A5xxCommands
  import G = GpuModel

  /** What an event is to the ring it happens on. Registers, modes, waits, counters and the memory that marks
      contexts have no counterpart in the GPU model. */
  function View(e: Event, at: Places, c: G.Ctx): seq<G.Cmd> {
    match e
    case IndirectBuffer(_, _) => [G.Buffer(c)]
    case TableUpdate(t, _) => [G.Install(t)]
    case Yield(_, _, _) => [G.YieldPoint]
    case Stamp(a, v, _) => if a == at.rbEop then [G.Eop(v)] else []
    case MemWrite(a, ws) =>
      if a == at.rbSop && |ws| == 1 then [G.Sop(ws[0])]
      else if a == at.scratchTtbr0 && |ws| == 3 then [G.Record(Join64(ws[0], ws[1]))]
      else []
    case _ => []
  }

  function Meaning(es: seq<Event>, at: Places, c: G.Ctx): seq<G.Cmd> {
    if es == [] then [] else Meaning(es[..|es| - 1], at, c) + View(es[|es| - 1], at, c)
  }

  /** The places that carry meaning are not used for anything else. */
  predicate Apart(at: Places) {
    && at.rbSop !in {at.ctxSop, at.refWait, at.rbCurrent, at.globalCurrent, at.scratchTtbr0}
    && at.rbEop != at.ctxEop
  }

  lemma MeaningSnoc(es: seq<Event>, e: Event, at: Places, c: G.Ctx)
    ensures Meaning(es + [e], at, c) == Meaning(es, at, c) + View(e, at, c)
  {
    assert (es + [e])[..|es|] == es;
  }

  lemma MeaningDo(es: seq<Event>, b: bool, e: Event, at: Places, c: G.Ctx)
    ensures Meaning(es + Do(b, e), at, c) == Meaning(es, at, c) + if b then View(e, at, c) else []
  {
    MeaningSnoc(es, e, at, c);
    assert es + [] == es;
  }

  lemma {:induction false} MeaningAppend(es: seq<Event>, fs: seq<Event>, at: Places, c: G.Ctx)
    ensures Meaning(es + fs, at, c) == Meaning(es, at, c) + Meaning(fs, at, c)
  {
    hide View, Meaning;
    if fs == [] {
      assert es + fs == es;
      MeaningNothing(at, c);
    } else {
      var init, last := fs[..|fs| - 1], fs[|fs| - 1];
      MeaningAppend(es, init, at, c);
      MeaningSnoc(es + init, last, at, c);
      MeaningSnoc(init, last, at, c);
      assert init + [last] == fs;
      assert es + init + [last] == es + fs;
    }
  }

  function One(b: bool): nat { if b then 1 else 0 }

  /** Events that are nothing to the ring. */
  lemma {:induction false} Unseen(es: seq<Event>, at: Places, c: G.Ctx)
    requires forall i :: 0 <= i < |es| ==> View(es[i], at, c) == []
    ensures Meaning(es, at, c) == []
  {
    if es != [] { Unseen(es[..|es| - 1], at, c); }
  }

  lemma HeadMeaning(s: A5xxStream.Submission, c: G.Ctx)
    requires Apart(s.at)
    ensures Meaning(HeadEvents(s), s.at, c) == G.Buffers(c, One(s.preProfile.Some?)) + [G.Sop(s.rbTimestamp)]
  {
    hide Meaning;
    var at := s.at;
    var mark := [Mark(if s.context.Some? then 0x2EED_FACE else 0x2EED_D00D)];
    var e2 := mark + PreambleEvents(s);
    var e3 := e2 + ProfileEvent(s.preProfile);
    var e4 := e3 + Do(s.context.Some?, MemWrite(at.ctxSop, [s.timestamp]));
    var e5 := e4 + [MemWrite(at.rbSop, [s.rbTimestamp])];
    var on, off := Mode(CP_SET_SECURE_MODE, true), Mode(CP_SET_PROTECTED_MODE, false);
    Unseen(e2, at, c);
    ProfileMeaning(e2, s.preProfile, at, c);
    MeaningDo(e3, s.context.Some?, MemWrite(at.ctxSop, [s.timestamp]), at, c);
    MeaningSnoc(e4, MemWrite(at.rbSop, [s.rbTimestamp]), at, c);
    MeaningDo(e5, s.secure, on, at, c);
    MeaningDo(e5 + Do(s.secure, on), s.notProtected, off, at, c);
  }

  lemma MeaningNothing(at: Places, c: G.Ctx)
    ensures Meaning([], at, c) == []
  {
  }

  lemma ProfileMeaning(es: seq<Event>, p: Option<Profile>, at: Places, c: G.Ctx)
    ensures Meaning(es + ProfileEvent(p), at, c) == Meaning(es, at, c) + G.Buffers(c, One(p.Some?))
  {
    match p
    case None => assert es + ProfileEvent(p) == es;
    case Some(b) => MeaningSnoc(es, IndirectBuffer(b.addr, b.dwords), at, c);
  }

  lemma TailMeaning(s: A5xxStream.Submission, c: G.Ctx)
    requires Apart(s.at) && s.preemption
    ensures Meaning(TailEvents(s), s.at, c) ==
            G.Buffers(c, One(s.postProfile.Some?)) + [G.Eop(s.rbTimestamp), G.YieldPoint]
  {
    hide Meaning, G.Buffers, CloseEvents, RetireEvents;
    CloseMeaning(s, c);
    RetireMeaning(s, c);
    MeaningAppend(CloseEvents(s), RetireEvents(s), s.at, c);
  }

  lemma CloseMeaning(s: A5xxStream.Submission, c: G.Ctx)
    requires Apart(s.at)
    ensures Meaning(CloseEvents(s), s.at, c) == G.Buffers(c, One(s.postProfile.Some?))
  {
    hide Meaning;
    var at := s.at;
    var on, halt := Mode(CP_SET_PROTECTED_MODE, true), Act(CP_WAIT_MEM_WRITES, []);
    var e1 := Do(s.notProtected, on);
    var e2 := e1 + ProfileEvent(s.postProfile);
    var e3 := e2 + Do(s.pageFaultHalt, halt);
    Unseen(e1, at, c);
    ProfileMeaning(e1, s.postProfile, at, c);
    MeaningDo(e2, s.pageFaultHalt, halt, at, c);
    MeaningSnoc(e3, MemWrite(at.refWait, [s.sequence]), at, c);
  }

  lemma RetireMeaning(s: A5xxStream.Submission, c: G.Ctx)
    requires Apart(s.at) && s.preemption
    ensures Meaning(RetireEvents(s), s.at, c) == [G.Eop(s.rbTimestamp), G.YieldPoint]
  {
    hide Meaning;
    var at := s.at;
    var wait, off := Act(CP_WAIT_FOR_IDLE, []), Mode(CP_SET_SECURE_MODE, false);
    var e1 := Do(s.context.Some?, Stamp(at.ctxEop, s.timestamp, true));
    var e2 := e1 + [Stamp(at.rbEop, s.rbTimestamp, s.context.None?)];
    var e3 := e2 + Do(s.wfi, wait);
    var e4 := e3 + Do(s.secure, off);
    Unseen(e1, at, c);
    MeaningSnoc(e1, Stamp(at.rbEop, s.rbTimestamp, s.context.None?), at, c);
    MeaningDo(e2, s.wfi, wait, at, c);
    MeaningDo(e3, s.secure, off, at, c);
    MeaningDo(e4, s.preemption, Yield(0, 1, true), at, c);
  }

  lemma MoreBuffers(c: G.Ctx, m: nat, n: nat)
    ensures G.Buffers(c, m) + G.Buffers(c, n) == G.Buffers(c, m + n)
    ensures G.Buffers(c, 1) == [G.Buffer(c)] && G.Buffers(c, 0) == []
  {
  }

  lemma {:induction false} NodesMeaning(ibs: seq<IbNode>, preamble: bool, at: Places, c: G.Ctx)
    ensures Meaning(A5xxCommands.Buffers(ibs, preamble), at, c) ==
            G.Buffers(c, |A5xxCommands.Buffers(ibs, preamble)|)
  {
    if ibs == [] {
      MeaningNothing(at, c);
      MoreBuffers(c, 0, 0);
    } else {
      hide Meaning, G.Buffers, A5xxCommands.Buffers, View;
      var init, last := ibs[..|ibs| - 1], ibs[|ibs| - 1];
      var runs := !last.skip && (!last.preamble || preamble);
      var before, e := A5xxCommands.Buffers(init, preamble), IndirectBuffer(last.addr, (last.size / 4) % 0x10_0000);
      NodesMeaning(init, preamble, at, c);
      LastBuffer(ibs, preamble);
      MeaningDo(before, runs, e, at, c);
      BufferSeen(last.addr, (last.size / 4) % 0x10_0000, at, c);
      MoreBuffers(c, |before|, One(runs));
      assert |before + Do(runs, e)| == |before| + One(runs);
    }
  }

  lemma LastBuffer(ibs: seq<IbNode>, preamble: bool)
    requires ibs != []
    ensures var last := ibs[|ibs| - 1];
            A5xxCommands.Buffers(ibs, preamble) ==
            A5xxCommands.Buffers(ibs[..|ibs| - 1], preamble)
            + Do(!last.skip && (!last.preamble || preamble), IndirectBuffer(last.addr, (last.size / 4) % 0x10_0000))
  {
  }

  lemma BufferSeen(addr: u64, size: u32, at: Places, c: G.Ctx)
    ensures View(IndirectBuffer(addr, size), at, c) == [G.Buffer(c)]
  {
  }

  /** How many buffers of its list a command runs, and how many in all with its own profiling buffers around them. */
  function Kept(k: Command): nat { |A5xxCommands.Buffers(if k.skipAll then [] else k.ibs, k.preamble)| }

  function Runs(k: Command): nat {
    One(k.userProfile.Some?) + Kept(k) + One(k.userProfile.Some?)
  }

  lemma FrontMeaning(k: Command, at: Places, c: G.Ctx)
    ensures Meaning(FrontEvents(k), at, c) == G.Buffers(c, One(k.userProfile.Some?))
  {
    hide Meaning;
    var mark := [Mark(0x2EAD_EABE)];
    Unseen(mark, at, c);
    var kernel, user := k.kernelProfile, k.userProfile;
    var e, f := RegToMem(k.counter, if kernel.Some? then kernel.value.0 else 0),
                IndirectBuffer(if user.Some? then user.value.0 else 0, 4);
    MeaningDo(mark, kernel.Some?, e, at, c);
    MeaningDo(mark + Do(kernel.Some?, e), user.Some?, f, at, c);
    MoreBuffers(c, 0, 0);
    assert FrontEvents(k) == mark + Do(kernel.Some?, e) + Do(user.Some?, f);
  }

  lemma BackMeaning(k: Command, at: Places, c: G.Ctx)
    ensures Meaning(BackEvents(k), at, c) == G.Buffers(c, One(k.userProfile.Some?))
  {
    hide Meaning;
    var kernel, user := k.kernelProfile, k.userProfile;
    var first := [Act(CP_SET_RENDER_MODE, [0, 0, 0, 0, 0])] + [Act(CP_YIELD_ENABLE, [1])];
    var e, f := RegToMem(k.counter, if kernel.Some? then kernel.value.1 else 0),
                IndirectBuffer(if user.Some? then user.value.1 else 0, 4);
    Unseen(first, at, c);
    MeaningDo(first, kernel.Some?, e, at, c);
    MeaningDo(first + Do(kernel.Some?, e), user.Some?, f, at, c);
    MeaningSnoc(first + Do(kernel.Some?, e) + Do(user.Some?, f), Mark(0x2ABE_DEAD), at, c);
    MoreBuffers(c, 0, 0);
    assert BackEvents(k) == first + Do(kernel.Some?, e) + Do(user.Some?, f) + [Mark(0x2ABE_DEAD)];
  }

  lemma CommandMeaning(k: Command, at: Places, c: G.Ctx)
    ensures Meaning(CommandEvents(k), at, c) == G.Buffers(c, Runs(k))
  {
    hide Meaning, A5xxCommands.Buffers, G.Buffers, FrontEvents, BackEvents, View;
    var ibs := if k.skipAll then [] else k.ibs;
    var nodes := A5xxCommands.Buffers(ibs, k.preamble);
    FrontMeaning(k, at, c);
    NodesMeaning(ibs, k.preamble, at, c);
    BackMeaning(k, at, c);
    MeaningAppend(FrontEvents(k), nodes, at, c);
    MeaningAppend(FrontEvents(k) + nodes, BackEvents(k), at, c);
    MoreBuffers(c, One(k.userProfile.Some?), Kept(k));
    MoreBuffers(c, One(k.userProfile.Some?) + Kept(k), One(k.userProfile.Some?));
  }

  lemma Around(a: seq<G.Cmd>, ts: nat, body: seq<G.Cmd>, z: seq<G.Cmd>)
    ensures (a + [G.Sop(ts)]) + body + (z + [G.Eop(ts), G.YieldPoint]) == G.Submission(ts, a, body + z)
  {
  }

  /** A user submission on a preempting device, word for word, is to its ring the submission of the GPU
      model: profiling buffer, start stamp, all buffers of the command, end stamp, yield point. */
  lemma UserSubmissionMeaning(s: A5xxStream.Submission, k: Command, c: G.Ctx)
    requires Apart(s.at) && s.preemption
    ensures Meaning(HeadEvents(s) + CommandEvents(k) + TailEvents(s), s.at, c) ==
            G.Submission(s.rbTimestamp, G.Buffers(c, One(s.preProfile.Some?)),
                         G.Buffers(c, Runs(k) + One(s.postProfile.Some?)))
  {
    hide Meaning, HeadEvents, TailEvents, CommandEvents, G.Buffers, G.Submission;
    HeadMeaning(s, c);
    CommandMeaning(k, s.at, c);
    TailMeaning(s, c);
    MeaningAppend(HeadEvents(s) + CommandEvents(k), TailEvents(s), s.at, c);
    MeaningAppend(HeadEvents(s), CommandEvents(k), s.at, c);
    MoreBuffers(c, Runs(k), One(s.postProfile.Some?));
    Around(G.Buffers(c, One(s.preProfile.Some?)), s.rbTimestamp, G.Buffers(c, Runs(k)),
           G.Buffers(c, One(s.postProfile.Some?)));
  }

  lemma TableMeaning(table: u64, id: u32, at: Places, c: G.Ctx)
    requires Apart(at)
    ensures Meaning(TableEvents(table, id, at.scratchTtbr0), at, c) == [G.Install(table), G.Record(table)]
  {
    hide Meaning;
    var es := TableEvents(table, id, at.scratchTtbr0);
    SplitJoin64(table);
    MeaningNothing(at, c);
    MeaningSnoc([], es[0], at, c);
    assert [] + [es[0]] == es[..1] && es == es[..1] + es[1..4] + [es[4]] + es[5..];
    Unseen(es[1..4], at, c);
    Unseen(es[5..], at, c);
    MeaningAppend(es[..1], es[1..4], at, c);
    MeaningSnoc(es[..1] + es[1..4], es[4], at, c);
    MeaningAppend(es[..1] + es[1..4] + [es[4]], es[5..], at, c);
  }

  function TableOf(active: Option<G.Ctx>): Option<u64> {
    match active case None => None case Some(a) => Some(a.table)
  }

  lemma SwitchMeaning(active: Option<G.Ctx>, c: G.Ctx, default: u64, id: u32, at: Places)
    requires Apart(at)
    ensures Meaning(SwitchEvents(TableOf(active), c.table, default, id, at), at, c) ==
            G.SwitchBody(active, c, default)
  {
    hide Meaning, TableEvents;
    var e0 := if TableOf(active) != Some(c.table) && c.table != default
              then TableEvents(c.table, id, at.scratchTtbr0) else [];
    MeaningNothing(at, c);
    TableMeaning(c.table, id, at, c);
    MeaningSnoc(e0, Mark(0x2EAD_BEEF), at, c);
    MeaningSnoc(e0 + [Mark(0x2EAD_BEEF)], MemWrite(at.rbCurrent, [id]), at, c);
    var e1 := e0 + [Mark(0x2EAD_BEEF)] + [MemWrite(at.rbCurrent, [id])];
    MeaningSnoc(e1, MemWrite(at.globalCurrent, [id]), at, c);
    MeaningSnoc(e1 + [MemWrite(at.globalCurrent, [id])], RegWrite(A5XX_UCHE_INVALIDATE0, 0x12), at, c);
  }

  /** The submission that switches contexts is, to its ring, that of the GPU model: the table update and
      its record between the stamps when the table changes, and nothing otherwise. */
  lemma SwitchSubmissionMeaning(s: A5xxStream.Submission, active: Option<G.Ctx>, c: G.Ctx, default: u64, id: u32)
    requires Apart(s.at) && s.preemption && s.preProfile == s.postProfile == None
    ensures Meaning(HeadEvents(s) + SwitchEvents(TableOf(active), c.table, default, id, s.at) + TailEvents(s), s.at, c)
            == G.Submission(s.rbTimestamp, [], G.SwitchBody(active, c, default))
  {
    var es := SwitchEvents(TableOf(active), c.table, default, id, s.at);
    hide Meaning, HeadEvents, TailEvents, SwitchEvents, G.SwitchBody, G.Submission;
    HeadMeaning(s, c);
    SwitchMeaning(active, c, default, id, s.at);
    TailMeaning(s, c);
    MeaningAppend(HeadEvents(s) + es, TailEvents(s), s.at, c);
    MeaningAppend(HeadEvents(s), es, s.at, c);
    Around([], s.rbTimestamp, G.SwitchBody(active, c, default), []);
    NothingAfter(G.SwitchBody(active, c, default));
  }

  /** The submission that selects a performance counter, for no context, leaves only its stamps. */
  lemma InternalSubmissionMeaning(s: A5xxStream.Submission, reg: nat, value: u32, c: G.Ctx)
    requires Apart(s.at) && s.preemption && s.preProfile == s.postProfile == None
    ensures Meaning(HeadEvents(s) + [RegWrite(reg, value)] + TailEvents(s), s.at, c)
            == G.Submission(s.rbTimestamp, [], [])
  {
    hide Meaning, HeadEvents, TailEvents, G.Buffers;
    HeadMeaning(s, c);
    TailMeaning(s, c);
    MeaningSnoc(HeadEvents(s), RegWrite(reg, value), s.at, c);
    MeaningAppend(HeadEvents(s) + [RegWrite(reg, value)], TailEvents(s), s.at, c);
    MoreBuffers(c, 0, 0);
    assert Meaning(HeadEvents(s) + [RegWrite(reg, value)], s.at, c) == [G.Sop(s.rbTimestamp)];
  }

  lemma NothingAfter<T>(xs: seq<T>)
    ensures xs + [] == xs
  {
  }
}
