/** Safety of the preemption state machine over whole runs, with handlers as steps. */
module PreemptSafety {
  import opened Wrappers
  import opened Pm4
  import opened GpuModel
  import R = RingSpace
  import S = A5xxStream

  /** In dwords less than a ring's worth is unread, and the ring is read to its end as in commands. */
  predicate Measured(x: Ring) {
    && x.read <= x.written < x.read + R.RB_DWORDS && x.written % R.RB_DWORDS <= R.RB_DWORDS - 2
    && (x.Empty() <==> x.read == x.written)
  }

  predicate Ordered(x: Ring) { x.rptr <= x.pos <= x.Wptr() && Measured(x) }

  /** A switch is under way or has not been wound up: one target, and it is not the current ring. */
  predicate Switching(g: Gpu)
    requires Indexed(g)
  {
    && g.next.Some? && g.next.value != g.cur && g.restore == g.next.value
    && (g.cntl ==> g.hw == g.cur && g.rings[g.restore].pos <= g.rings[g.restore].record <= g.rings[g.restore].Wptr())
    && (!g.cntl ==> g.hw == g.next.value)
  }

  /** Nothing is under way: the GPU is on the current ring and has its whole write offset. */
  predicate Settled(g: Gpu)
    requires Indexed(g)
  {
    !g.cntl && g.hw == g.cur && g.reg == g.rings[g.cur].Wptr()
  }

  predicate Inv(g: Gpu) {
    && Indexed(g)
    && (forall i :: 0 <= i < |g.rings| ==> Ordered(g.rings[i]))
    && g.rings[g.hw].pos <= g.reg <= g.rings[g.hw].Wptr()
    && g.state !in {Started, Pending}
    && (if g.state == NoPreempt then Settled(g) else Switching(g))
  }

  lemma InitInv(g: Gpu)
    requires Init(g)
    ensures Inv(g)
  {
  }

  /** No handler finds the state machine in a state it cannot deal with. */
  lemma HandlersAreReady(g: Gpu, awake: bool)
    requires Inv(g)
    ensures Enabled(g, Interrupts) && Enabled(g, TimesOut) && Enabled(g, Triggers)
    ensures g.submitting.None? ==> Enabled(g, Schedules(awake)) && Enabled(g, Works(awake))
  {
  }

  lemma TriggerInv(g: Gpu)
    requires Inv(g)
    ensures Inv(Trigger(g))
  {
  }

  lemma FinishInv(g: Gpu)
    requires Inv(g) && g.state != NoPreempt && !g.cntl
    ensures Inv(Finish(g))
  {
  }

  /** A submission that finds a slot leaves the ring less than a ring's worth ahead of what is read. */
  lemma AdvanceFits(x: Ring, front: seq<Cmd>, body: seq<Cmd>, size: Size)
    requires Ordered(x) && size.Valid() && x.Slot(size.dwords) != R.NoSpace
    ensures Ordered(Added(x, front, body, size, Ok)) && x.written < Advance(x, size)
  {
    R.AllocOnTotals(x.read, x.written, S.SUBMIT_MAX + size.dwords, size.used);
  }

  /** A ring grows, and its new offset is handed over. */
  lemma HandOverInv(g: Gpu, r: nat, x: Ring)
    requires Inv(g) && r < |g.rings| && Ordered(x)
    requires x == g.rings[r].(stream := x.stream, timestamp := x.timestamp, written := x.written)
    requires g.rings[r].Wptr() <= x.Wptr()
    ensures Inv(HandOver(SetRing(g, r, x), r))
  {
    hide Measured;
  }

  lemma AddCmdsInv(g: Gpu, r: nat, front: seq<Cmd>, body: seq<Cmd>, size: Size, detached: bool)
    requires Inv(g) && r < |g.rings| && size.Valid()
    ensures Inv(AddCmds(g, r, front, body, size, detached))
  {
    assert Indexed(g) && Ordered(g.rings[r]);
    hide Inv, Indexed, Measured, Advance, Submission, HandOver, SetRing, AddCmds, Added, Ordered;
    var x, ret := g.rings[r], AddResult(g, r, size, detached);
    AddCmdsIs(g, r, front, body, size, detached);
    if ret == NoSpc {
      LaterInv(g, r);
    } else if ret == Ok {
      AdvanceFits(x, front, body, size);
      AddedGrows(x, front, body, size);
      HandOverInv(g, r, Added(x, front, body, size, Ok));
    }
  }

  lemma AddCmdsIs(g: Gpu, r: nat, front: seq<Cmd>, body: seq<Cmd>, size: Size, detached: bool)
    requires Indexed(g) && r < |g.rings|
    ensures var x, ret, t := g.rings[r], AddResult(g, r, size, detached), AddCmds(g, r, front, body, size, detached);
            && ret in {NoEntry, Protocol, NoSpc, Ok}
            && t == if ret == NoEntry || ret == Protocol then g
                    else if ret == NoSpc then SetRing(g, r, x.(timestamp := x.timestamp + 1))
                    else HandOver(SetRing(g, r, Added(x, front, body, size, Ok)), r)
  {
    hide Advance, Submission, HandOver;
  }

  lemma AddedGrows(x: Ring, front: seq<Cmd>, body: seq<Cmd>, size: Size)
    ensures var y := Added(x, front, body, size, Ok);
            y == x.(stream := y.stream, timestamp := y.timestamp, written := y.written) && x.Wptr() <= y.Wptr()
  {
  }

  /** A timestamp that is used up without a submission. */
  lemma LaterInv(g: Gpu, r: nat)
    requires Inv(g) && r < |g.rings|
    ensures Inv(SetRing(g, r, g.rings[r].(timestamp := g.rings[r].timestamp + 1)))
  {
    var x := g.rings[r];
    assert Measured(x.(timestamp := x.timestamp + 1));
    hide Measured;
  }

  /** References, active contexts and the submitter's position play no part. */
  lemma RefsDoNotMatter(g: Gpu, r: nat, active: Option<Ctx>, taken: multiset<Ctx>, deferred: multiset<Ctx>)
    requires Inv(g) && r < |g.rings|
    ensures Inv(SetRing(g, r, g.rings[r].(active := active)).(taken := taken, deferred := deferred))
    ensures Inv(g.(taken := taken, deferred := deferred))
  {
    hide Measured;
    SameMeasure(g.rings[r], active);
  }

  lemma SameMeasure(x: Ring, active: Option<Ctx>)
    ensures Measured(x.(active := active)) == Measured(x)
  {
  }

  lemma SubmittingDoesNotMatter(g: Gpu, submitting: Option<(nat, Ctx)>)
    requires Inv(g) && (submitting.Some? ==> submitting.value.0 < |g.rings|)
    ensures Inv(g.(submitting := submitting))
  {
    hide Ordered;
  }

  lemma SwitchContextInv(g: Gpu, r: nat, c: Ctx, env: Env)
    requires Inv(g) && r < |g.rings| && SwitchSize(g, r, c, env).Valid()
    ensures Inv(SwitchContext(g, r, c, env))
  {
    assert Indexed(g);
    hide Inv, AddCmds, SwitchBody, SwitchSize;
    if g.rings[r].active != Some(c) && SwitchResult(g, r, c, env) == Ok {
      var g1 := g.(taken := g.taken + multiset{c});
      var body, size := SwitchBody(g.rings[r].active, c, g.default), SwitchSize(g, r, c, env);
      RefsDoNotMatter(g, r, None, g1.taken, g1.deferred);
      AddCmdsInv(g1, r, [], body, size, false);
      var g2 := AddCmds(g1, r, [], body, size, false);
      var g3 := PutLater(g2, g.rings[r].active, env.eventOk);
      RefsDoNotMatter(g2, r, Some(c), g3.taken, g3.deferred);
    }
  }

  lemma BeginInv(g: Gpu, r: nat, c: Ctx, env: Env)
    requires Inv(g) && r < |g.rings| && SwitchSize(g, r, c, env).Valid()
    ensures Inv(Begin(g, r, c, env))
  {
    assert Indexed(g);
    hide Inv, SwitchContext;
    SwitchContextInv(g, r, c, env);
    SubmittingDoesNotMatter(SwitchContext(g, r, c, env), Some((r, c)));
  }

  lemma SubmitInv(g: Gpu, front: nat, n: nat, size: Size, detached: bool)
    requires Inv(g) && g.submitting.Some? && size.Valid()
    ensures Inv(Submit(g, front, n, size, detached))
  {
    assert Indexed(g);
    hide Inv, AddCmds;
    var (r, c) := g.submitting.value;
    AddCmdsInv(g, r, Buffers(c, front), Buffers(c, n), size, detached);
    SubmittingDoesNotMatter(AddCmds(g, r, Buffers(c, front), Buffers(c, n), size, detached), None);
  }

  lemma RestartInv(g: Gpu, fault: bool)
    requires Inv(g)
    ensures Inv(Restart(g, fault))
  {
  }

  /** Carrying out a command moves the position of the ring by one and no offset besides. */
  lemma ExecShape(g: Gpu)
    requires Indexed(g) && g.rings[g.hw].pos < g.rings[g.hw].Wptr()
    ensures var t, x := ExecCmd(g), g.rings[g.hw];
            var y, cmd := t.rings[g.hw], x.stream[x.pos];
            && t == g.(rings := g.rings[g.hw := y], ttbr0 := t.ttbr0)
            && y == x.(pos := x.pos + 1, scratch := y.scratch, consumed := y.consumed, retired := y.retired)
            && t.ttbr0 == (if cmd.Install? then cmd.table else g.ttbr0)
            && y.scratch == (if cmd.Record? then cmd.table else x.scratch)
            && y.consumed == (if cmd.Sop? then cmd.ts else x.consumed)
            && y.retired == (if cmd.Eop? then cmd.ts else x.retired)
  {
  }

  lemma ExecInv(g: Gpu)
    requires Inv(g) && Enabled(g, Executes)
    ensures Inv(ExecCmd(g))
  {
    hide ExecCmd;
    ExecShape(g);
  }

  lemma HwSwitchInv(g: Gpu)
    requires Inv(g) && Enabled(g, Switches)
    ensures Inv(HwSwitch(g))
  {
  }

  lemma CallbackInv(g: Gpu)
    requires Inv(g)
    ensures Inv(Callback(g))
  {
    if g.state == Triggered && !g.cntl {
      hide Trigger, Finish;
      FinishInv(g);
      TriggerInv(Finish(g));
    }
  }

  lemma ScheduleInv(g: Gpu, awake: bool)
    requires Inv(g)
    ensures Inv(Schedule(g, awake))
  {
    if g.state == Complete && awake && !g.cntl {
      hide Trigger, Finish;
      FinishInv(g);
      TriggerInv(Finish(g));
    } else if g.state == NoPreempt {
      TriggerInv(g);
    }
  }

  lemma ReportInv(g: Gpu, v: nat, d: nat)
    requires Inv(g) && Enabled(g, Reports(v, d))
    ensures Inv(Next(g, Reports(v, d)))
  {
  }

  lemma SlumberInv(g: Gpu)
    requires Inv(g)
    ensures Inv(SetActiveNull(g))
  {
    forall i | 0 <= i < |g.rings| ensures Measured(Idle(g.rings[i])) { assert Ordered(g.rings[i]); }
    hide Measured, ActiveRefs;
  }

  /** Steps that neither submit nor restart, and switch nothing. */
  predicate Calm(s: Step) {
    s.TimesOut? || s.Works? || s.Slumbers? || s.Puts? || s.Reports? || s.Faults? || s.Drops?
  }

  lemma QuietInv(g: Gpu, s: Step)
    requires Inv(g) && Enabled(g, s) && Calm(s)
    ensures Inv(Next(g, s))
  {
    assert Indexed(g) && g.state != Started && g.state != Pending;
    hide Inv, SetActiveNull;
    var t := Next(g, s);
    if s.Reports? {
      ReportInv(g, s.upto, s.dwords);
    } else if s.Slumbers? {
      SlumberInv(g);
    } else {
      StateInv(g, t.state, t.fault, t.taken, t.deferred);
    }
  }

  /** Outside NONE the state word tells nothing that the hardware does not. */
  lemma StateInv(g: Gpu, state: PreemptState, fault: bool, taken: multiset<Ctx>, deferred: multiset<Ctx>)
    requires Inv(g) && state != Started && state != Pending && (state == NoPreempt <==> g.state == NoPreempt)
    ensures Inv(g.(state := state, fault := fault, taken := taken, deferred := deferred))
  {
    hide Ordered;
  }

  /** Every step keeps the invariant. */
  lemma StepInv(g: Gpu, s: Step)
    requires Inv(g) && Enabled(g, s)
    ensures Inv(Next(g, s))
  {
    hide Inv;
    match s
    case Begins(r, c, env) => BeginInv(g, r, c, env);
    case Submits(front, n, size, detached) => SubmitInv(g, front, n, size, detached);
    case Internal(r, size) => AddCmdsInv(g, r, [], [], size, false);
    case Triggers => TriggerInv(g);
    case Interrupts => CallbackInv(g);
    case Schedules(awake) => ScheduleInv(g, awake);
    case Restarts(fault) => RestartInv(g, fault);
    case Executes => ExecInv(g);
    case Switches => HwSwitchInv(g);
    case _ => QuietInv(g, s);
  }

  /** Every reachable state satisfies the invariant. */
  lemma {:induction false} RunInv(g: Gpu, steps: seq<Step>)
    requires Inv(g) && Runs(g, steps)
    ensures Inv(After(g, steps))
    decreases steps
  {
    hide Inv, Next;
    if steps != [] {
      StepInv(g, steps[0]);
      RunInv(Next(g, steps[0]), steps[1..]);
    }
  }

  /** No lost write pointer: whenever no preemption is in progress, the hardware write pointer is that
      of the current ring, although submissions during a switch skip the register. */
  lemma NoLostWritePointer(g: Gpu, steps: seq<Step>)
    requires Init(g) && Runs(g, steps) && After(g, steps).state == NoPreempt
    ensures var t := After(g, steps);
            Indexed(t) && t.reg == t.rings[t.cur].Wptr() && t.hw == t.cur && !t.cntl
  {
    InitInv(g);
    RunInv(g, steps);
  }

  /** No ring is ever overrun: in every reachable state less than a ring's worth of dwords is unread, although
      submissions move the offset back after they have taken their slot; so the driver, which compares
      offsets round the ring, finds a ring empty exactly when the GPU has reported all of it. */
  lemma NoRingOverrun(g: Gpu, steps: seq<Step>, i: nat)
    requires Init(g) && Runs(g, steps) && i < |After(g, steps).rings|
    ensures var x := After(g, steps).rings[i];
            && x.read <= x.written < x.read + R.RB_DWORDS
            && (x.Empty() <==> x.read % R.RB_DWORDS == x.written % R.RB_DWORDS)
  {
    InitInv(g);
    RunInv(g, steps);
    var x := After(g, steps).rings[i];
    assert Ordered(x);
    R.EmptyOnTotals(x.read, x.written);
  }

  /** One switch at a time: outside NONE there is a target, it is not the current ring, the GPU is on
      the one or the other according to the register, and START and PENDING are never left behind. */
  lemma OneSwitchAtATime(g: Gpu, steps: seq<Step>)
    requires Init(g) && Runs(g, steps)
    ensures var t := After(g, steps);
            && Indexed(t) && t.state in {NoPreempt, Triggered, Faulted, Complete}
            && (t.state != NoPreempt ==>
                  && t.next.Some? && t.next.value != t.cur && t.restore == t.next.value
                  && t.hw == if t.cntl then t.cur else t.next.value)
  {
    InitInv(g);
    RunInv(g, steps);
  }

  /** Submissions extend their ring and touch nothing of a switch. */
  predicate Extended(g: Gpu, t: Gpu, r: nat) {
    && r < |g.rings| == |t.rings|
    && var x, y := g.rings[r], t.rings[r];
    && t == g.(rings := g.rings[r := y], reg := t.reg, taken := t.taken, deferred := t.deferred,
               submitting := t.submitting)
    && y == x.(stream := y.stream, active := y.active, timestamp := y.timestamp, written := y.written)
    && x.stream <= y.stream && x.timestamp <= y.timestamp
    && (g.state != NoPreempt ==> t.reg == g.reg)
  }

  lemma AddCmdsShape(g: Gpu, r: nat, front: seq<Cmd>, body: seq<Cmd>, size: Size, detached: bool)
    requires Indexed(g) && r < |g.rings|
    ensures var t := AddCmds(g, r, front, body, size, detached);
            Extended(g, t, r) && t.taken == g.taken && t.deferred == g.deferred && t.submitting == g.submitting
  {
    hide Submission, Advance;
    assert g.rings[r := g.rings[r]] == g.rings;
  }

  lemma ExtendedActive(g: Gpu, t: Gpu, r: nat, active: Option<Ctx>, taken: multiset<Ctx>, deferred: multiset<Ctx>)
    requires Extended(g.(taken := t.taken, deferred := t.deferred), t, r)
    ensures Extended(g, SetRing(t.(taken := taken, deferred := deferred), r, t.rings[r].(active := active)), r)
  {
  }

  lemma SwitchContextShape(g: Gpu, r: nat, c: Ctx, env: Env)
    requires Indexed(g) && r < |g.rings|
    ensures Extended(g, SwitchContext(g, r, c, env), r) && SwitchContext(g, r, c, env).submitting == g.submitting
  {
    hide AddCmds, SwitchBody, SwitchSize, Extended;
    if g.rings[r].active == Some(c) || SwitchResult(g, r, c, env) != Ok {
      ExtendedSelf(g, r);
    } else {
      var g1 := g.(taken := g.taken + multiset{c});
      var body, size := SwitchBody(g.rings[r].active, c, g.default), SwitchSize(g, r, c, env);
      AddCmdsShape(g1, r, [], body, size, false);
      var g2 := AddCmds(g1, r, [], body, size, false);
      var g3 := PutLater(g2, g.rings[r].active, env.eventOk);
      assert g1 == g.(taken := g2.taken, deferred := g2.deferred);
      ExtendedActive(g, g2, r, Some(c), g3.taken, g3.deferred);
    }
  }

  lemma ExtendedSelf(g: Gpu, r: nat)
    requires r < |g.rings|
    ensures Extended(g, g, r)
  {
    assert g.rings[r := g.rings[r]] == g.rings;
  }

  /** What an addition does to its own ring. */
  function Added(x: Ring, front: seq<Cmd>, body: seq<Cmd>, size: Size, ret: Ret): Ring {
    if ret == NoEntry || ret == Protocol then x
    else if ret == NoSpc then x.(timestamp := x.timestamp + 1)
    else x.(timestamp := x.timestamp + 1, stream := x.stream + Submission(x.timestamp + 1, front, body),
            written := Advance(x, size))
  }

  lemma AddCmdsRing(g: Gpu, r: nat, front: seq<Cmd>, body: seq<Cmd>, size: Size, detached: bool)
    requires Indexed(g) && r < |g.rings|
    ensures AddCmds(g, r, front, body, size, detached).rings[r] ==
            Added(g.rings[r], front, body, size, AddResult(g, r, size, detached))
  {
    hide Submission, Advance;
  }

  lemma SwitchContextRing(g: Gpu, r: nat, c: Ctx, env: Env)
    requires Indexed(g) && r < |g.rings| && g.rings[r].active != Some(c) && SwitchResult(g, r, c, env) == Ok
    ensures var size := SwitchSize(g, r, c, env);
            SwitchContext(g, r, c, env).rings[r] ==
            Added(g.rings[r], [], SwitchBody(g.rings[r].active, c, g.default), size,
                  AddResult(g, r, size, false)).(active := Some(c))
  {
    hide AddCmds, SwitchBody, Added, SwitchSize;
    AddCmdsRing(g.(taken := g.taken + multiset{c}), r, [], SwitchBody(g.rings[r].active, c, g.default),
                SwitchSize(g, r, c, env), false);
  }

  predicate Loads(s: Step) { s.Begins? || s.Submits? || s.Internal? }

  /** The ring a submitting step is for. */
  function RingOf(g: Gpu, s: Step): nat
    requires Enabled(g, s) && Loads(s)
  {
    if s.Submits? then g.submitting.value.0 else s.ring
  }

  /** Any of the three steps that submit extends one ring. */
  lemma SubmissionShape(g: Gpu, s: Step)
    requires Enabled(g, s) && Loads(s)
    ensures Extended(g, Next(g, s), RingOf(g, s))
  {
    hide AddCmds, SwitchContext;
    match s
    case Begins(r, c, env) => SwitchContextShape(g, r, c, env);
    case Submits(front, n, size, detached) =>
      var (r, c) := g.submitting.value;
      AddCmdsShape(g, r, Buffers(c, front), Buffers(c, n), size, detached);
    case Internal(r, size) => AddCmdsShape(g, r, [], [], size, false);
  }

  /** Step `s` from `g` starts a hardware switch. */
  predicate Raises(g: Gpu, t: Gpu) { !g.cntl && t.cntl }

  /** The target of a new switch: the first ring that is not empty, and another than the current one. */
  predicate RightTarget(t: Gpu)
    requires Indexed(t)
  {
    && t.state == Triggered && t.next.Some? && t.next.value != t.cur
    && !t.rings[t.next.value].Empty() && forall k :: 0 <= k < t.next.value ==> t.rings[k].Empty()
  }

  lemma TriggerDiscipline(g: Gpu)
    requires Inv(g)
    ensures Raises(g, Trigger(g)) ==> g.state == NoPreempt && RightTarget(Trigger(g)) && Trigger(g).cur == g.cur
    ensures g.state != NoPreempt ==> Trigger(g) == g
  {
  }

  /** A step starts a switch only from NONE and towards the highest priority ring that is not empty;
      while a switch is in flight, no step of the driver but a restart writes the hardware write
      pointer or the switch register. */
  lemma SwitchDiscipline(g: Gpu, s: Step)
    requires Inv(g) && Enabled(g, s)
    ensures var t := Next(g, s);
            && (Raises(g, t) ==> RightTarget(t))
            && (g.cntl && !s.Restarts? && !s.Switches? ==> t.reg == g.reg && t.cntl && t.restore == g.restore)
  {
    hide Trigger, Begin, Submit, AddCmds, ExecCmd, HwSwitch;
    TriggerDiscipline(g);
    match s
    case Begins(_, _, _) => SubmissionShape(g, s);
    case Submits(_, _, _, _) => SubmissionShape(g, s);
    case Internal(_, _) => SubmissionShape(g, s);
    case Interrupts =>
      if g.state == Triggered && !g.cntl {
        FinishInv(g);
        TriggerDiscipline(Finish(g));
      }
    case Schedules(awake) =>
      if g.state == Complete && awake && !g.cntl {
        FinishInv(g);
        TriggerDiscipline(Finish(g));
      } else if g.state == Complete {
        CompleteStays(g, awake);
      }
    case Executes => ExecShape(g);
    case Switches => SwitchLowers(g);
    case _ =>
  }

  lemma CompleteStays(g: Gpu, awake: bool)
    requires Inv(g) && g.state == Complete && (!awake || g.cntl)
    ensures Schedule(g, awake) == Done(g, awake) && Done(g, awake) in {g, g.(fault := true)}
  {
  }

  lemma SwitchLowers(g: Gpu)
    requires Inv(g)
    ensures !HwSwitch(g).cntl
  {
  }
}
