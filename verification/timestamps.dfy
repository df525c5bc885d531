/** Start and end of pipe timestamps of every ring, over whole runs. */
module Timestamps {
  import opened Wrappers
  import opened Pm4
  import opened GpuModel
  import opened PreemptSafety

  /** Carrying out `s` keeps retired <= consumed <= timestamp throughout; every start stamp is new and
      every end stamp repeats it and exceeds all retired ones. */
  predicate Pending(s: seq<Cmd>, consumed: nat, retired: nat, timestamp: nat)
    decreases s
  {
    && retired <= consumed <= timestamp
    && (s == [] ||
        match s[0]
        case Sop(ts) => consumed < ts && Pending(s[1..], ts, retired, timestamp)
        case Eop(ts) => retired < ts == consumed && Pending(s[1..], consumed, ts, timestamp)
        case _ => Pending(s[1..], consumed, retired, timestamp))
  }

  predicate TimeOk(x: Ring) {
    x.pos <= x.Wptr() && Pending(x.stream[x.pos..], x.consumed, x.retired, x.timestamp)
  }

  predicate TimeInv(g: Gpu) {
    Inv(g) && forall i :: 0 <= i < |g.rings| ==> TimeOk(g.rings[i])
  }

  /** No stamps. */
  predicate Plain(cs: seq<Cmd>) {
    forall c :: c in cs ==> !c.Sop? && !c.Eop?
  }

  lemma {:induction false} PendingPlain(s: seq<Cmd>, cs: seq<Cmd>, consumed: nat, retired: nat, timestamp: nat)
    requires Plain(cs) && Pending(s, consumed, retired, timestamp)
    ensures Pending(cs + s, consumed, retired, timestamp)
  {
    if cs == [] {
      assert cs + s == s;
    } else {
      assert (cs + s)[1..] == cs[1..] + s;
      PendingPlain(s, cs[1..], consumed, retired, timestamp);
    }
  }

  lemma PendingSubmission(ts: nat, front: seq<Cmd>, body: seq<Cmd>, consumed: nat, retired: nat)
    requires Plain(front) && Plain(body) && retired <= consumed < ts
    ensures Pending(Submission(ts, front, body), consumed, retired, ts)
  {
    var tail := [Eop(ts), YieldPoint];
    assert tail[1..] == [YieldPoint] && [YieldPoint][1..] == [];
    PendingPlain(tail, body, ts, retired, ts);
    assert ([Sop(ts)] + (body + tail))[1..] == body + tail;
    PendingPlain([Sop(ts)] + (body + tail), front, consumed, retired, ts);
    assert front + ([Sop(ts)] + (body + tail)) == Submission(ts, front, body);
  }

  /** A submission goes in behind what is pending, with the next timestamp. */
  lemma {:induction false} PendingAppend(s: seq<Cmd>, front: seq<Cmd>, body: seq<Cmd>,
                                         consumed: nat, retired: nat, timestamp: nat)
    requires Plain(front) && Plain(body) && Pending(s, consumed, retired, timestamp)
    ensures Pending(s + Submission(timestamp + 1, front, body), consumed, retired, timestamp + 1)
    decreases s
  {
    hide Plain, Submission;
    var sub := Submission(timestamp + 1, front, body);
    if s == [] {
      assert s + sub == sub;
      PendingSubmission(timestamp + 1, front, body, consumed, retired);
    } else {
      assert (s + sub)[1..] == s[1..] + sub;
      PendingAppend(s[1..], front, body,
                    if s[0].Sop? then s[0].ts else consumed, if s[0].Eop? then s[0].ts else retired, timestamp);
    }
  }

  /** A timestamp that is used up without a submission does no harm. */
  lemma {:induction false} PendingLater(s: seq<Cmd>, consumed: nat, retired: nat, timestamp: nat)
    requires Pending(s, consumed, retired, timestamp)
    ensures Pending(s, consumed, retired, timestamp + 1)
    decreases s
  {
    if s != [] {
      PendingLater(s[1..], if s[0].Sop? then s[0].ts else consumed, if s[0].Eop? then s[0].ts else retired, timestamp);
    }
  }

  lemma AddedTime(x: Ring, front: seq<Cmd>, body: seq<Cmd>, size: Size, ret: Ret)
    requires TimeOk(x) && Plain(front) && Plain(body)
    ensures TimeOk(Added(x, front, body, size, ret))
  {
    hide Plain, Submission, Pending, Advance;
    var p := x.stream[x.pos..];
    PendingAppend(p, front, body, x.consumed, x.retired, x.timestamp);
    PendingLater(p, x.consumed, x.retired, x.timestamp);
    assert (x.stream + Submission(x.timestamp + 1, front, body))[x.pos..]
        == p + Submission(x.timestamp + 1, front, body);
  }

  /** The retired timestamp of each ring is kept or raised. */
  predicate Rises(g: Gpu, t: Gpu) {
    |g.rings| == |t.rings| && forall i :: 0 <= i < |g.rings| ==> g.rings[i].retired <= t.rings[i].retired
  }

  lemma ExtendedTime(g: Gpu, t: Gpu, r: nat)
    requires TimeInv(g) && Inv(t) && Extended(g, t, r) && TimeOk(t.rings[r])
    ensures TimeInv(t) && Rises(g, t)
  {
    hide Inv, TimeOk;
  }

  lemma SwitchTime(g: Gpu, r: nat, c: Ctx, env: Env)
    requires Indexed(g) && r < |g.rings| && TimeOk(g.rings[r])
    ensures TimeOk(SwitchContext(g, r, c, env).rings[r])
  {
    hide AddCmds, SwitchContext, Added, TimeOk, Plain, SwitchBody, SwitchSize;
    var x := g.rings[r];
    if x.active == Some(c) || SwitchResult(g, r, c, env) != Ok {
      SwitchRefused(g, r, c, env);
    } else {
      var body, size := SwitchBody(x.active, c, g.default), SwitchSize(g, r, c, env);
      var y := Added(x, [], body, size, AddResult(g, r, size, false));
      SwitchContextRing(g, r, c, env);
      PlainBodies(c, 0, x.active, g.default);
      AddedTime(x, [], body, size, AddResult(g, r, size, false));
      SameTimes(y, y.(active := Some(c)));
    }
  }

  /** The three steps that submit keep their ring's stamps in order. */
  lemma LoadTime(g: Gpu, s: Step)
    requires TimeInv(g) && Enabled(g, s) && Loads(s)
    ensures TimeInv(Next(g, s)) && Rises(g, Next(g, s))
  {
    assert Inv(g);
    hide Inv, TimeOk, Begin, Submit, AddCmds, Extended;
    StepInv(g, s);
    SubmissionShape(g, s);
    match s
    case Begins(r, c, env) => BeginTime(g, r, c, env);
    case Submits(front, n, size, detached) => SubmitTime(g, front, n, size, detached);
    case Internal(r, size) => AddTime(g, r, [], [], size, false);
    ExtendedTime(g, Next(g, s), RingOf(g, s));
  }

  lemma AddTime(g: Gpu, r: nat, front: seq<Cmd>, body: seq<Cmd>, size: Size, detached: bool)
    requires Indexed(g) && r < |g.rings| && TimeOk(g.rings[r]) && Plain(front) && Plain(body)
    ensures TimeOk(AddCmds(g, r, front, body, size, detached).rings[r])
  {
    hide AddCmds, Added, TimeOk, Plain;
    AddCmdsRing(g, r, front, body, size, detached);
    AddedTime(g.rings[r], front, body, size, AddResult(g, r, size, detached));
  }

  lemma BeginTime(g: Gpu, r: nat, c: Ctx, env: Env)
    requires Indexed(g) && r < |g.rings| && TimeOk(g.rings[r])
    ensures TimeOk(Begin(g, r, c, env).rings[r])
  {
    hide SwitchContext, TimeOk;
    SwitchTime(g, r, c, env);
  }

  lemma SubmitTime(g: Gpu, front: nat, n: nat, size: Size, detached: bool)
    requires Indexed(g) && g.submitting.Some? && TimeOk(g.rings[g.submitting.value.0])
    ensures TimeOk(Submit(g, front, n, size, detached).rings[g.submitting.value.0])
  {
    hide AddCmds, TimeOk, Plain, Buffers;
    var (r, c) := g.submitting.value;
    PlainBodies(c, front, None, g.default);
    PlainBodies(c, n, None, g.default);
    AddTime(g, r, Buffers(c, front), Buffers(c, n), size, detached);
  }

  lemma PlainBodies(c: Ctx, n: nat, active: Option<Ctx>, default: u64)
    ensures Plain(Buffers(c, n)) && Plain([]) && Plain(SwitchBody(active, c, default))
  {
  }

  lemma SameTimes(x: Ring, y: Ring)
    requires x.stream == y.stream && x.pos == y.pos
    requires x.consumed == y.consumed && x.retired == y.retired && x.timestamp == y.timestamp
    ensures TimeOk(x) == TimeOk(y)
  {
  }

  lemma ExecTime(g: Gpu)
    requires TimeInv(g) && Enabled(g, Executes)
    ensures TimeInv(ExecCmd(g)) && Rises(g, ExecCmd(g))
    ensures var x := g.rings[g.hw];
            ExecCmd(g).rings[g.hw].retired != x.retired <==> x.stream[x.pos].Eop?
  {
    ExecInv(g);
    ExecShape(g);
    hide Inv, ExecCmd;
    var x := g.rings[g.hw];
    assert x.stream[x.pos..][1..] == x.stream[x.pos + 1..];
  }

  /** A ring after a restart: empty, with its stamps as they were or all at its timestamp. */
  predicate Cleared(x: Ring, y: Ring) {
    && y.stream == [] && y.pos == 0 && y.timestamp == x.timestamp
    && ((y.consumed == x.consumed && y.retired == x.retired) || y.consumed == y.retired == x.timestamp)
  }

  lemma ClearsRings(g: Gpu)
    ensures var t := ClearRings(Start(SetActiveNull(g)));
            && |t.rings| == |g.rings|
            && forall i :: 0 <= i < |g.rings| ==>
                 var x, y := g.rings[i], t.rings[i];
                 && y.stream == [] && y.pos == 0 && y.timestamp == x.timestamp
                 && y.consumed == x.consumed && y.retired == x.retired
  {
    hide ActiveRefs;
  }

  lemma RestartRings(g: Gpu, fault: bool)
    requires Indexed(g)
    ensures forall i :: 0 <= i < |g.rings| ==> Cleared(g.rings[i], Restart(g, fault).rings[i])
  {
    hide ClearRings, Start, SetActiveNull;
    ClearsRings(if fault then Blame(g) else g);
  }

  lemma ClearedTime(x: Ring, y: Ring)
    requires TimeOk(x) && Cleared(x, y)
    ensures TimeOk(y) && x.retired <= y.retired
  {
  }

  lemma RestartTime(g: Gpu, fault: bool)
    requires TimeInv(g)
    ensures TimeInv(Restart(g, fault)) && Rises(g, Restart(g, fault))
  {
    assert Indexed(g);
    hide Inv, TimeOk, Cleared, Restart;
    RestartInv(g, fault);
    RestartRings(g, fault);
    forall i | 0 <= i < |g.rings|
      ensures TimeOk(Restart(g, fault).rings[i]) && g.rings[i].retired <= Restart(g, fault).rings[i].retired
    {
      ClearedTime(g.rings[i], Restart(g, fault).rings[i]);
    }
  }

  /** Nothing but submissions, execution and restarts touches streams or stamps. */
  predicate SameStamps(g: Gpu, t: Gpu) {
    && |g.rings| == |t.rings|
    && forall i :: 0 <= i < |g.rings| ==>
         t.rings[i] == g.rings[i].(record := t.rings[i].record, rptr := t.rings[i].rptr, read := t.rings[i].read,
                                   active := t.rings[i].active)
  }

  lemma TriggerStamps(g: Gpu)
    requires Indexed(g)
    ensures SameStamps(g, Trigger(g))
    ensures g.next.Some? ==> SameStamps(g, Finish(g)) && Finish(g).rings == g.rings
  {
  }

  lemma HardwareStamps(g: Gpu, s: Step)
    requires Enabled(g, s) && (s.Switches? || s.Reports? || s.Slumbers?)
    ensures SameStamps(g, Next(g, s))
  {
    hide ActiveRefs;
  }

  lemma SameRings(g: Gpu, h: Gpu, t: Gpu)
    requires g.rings == h.rings && SameStamps(h, t)
    ensures SameStamps(g, t)
  {
  }

  lemma OtherStamps(g: Gpu, s: Step)
    requires Indexed(g) && Enabled(g, s) && !Loads(s) && !s.Executes? && !s.Restarts?
    ensures SameStamps(g, Next(g, s))
  {
    hide Trigger, Finish, SameStamps, HwSwitch, SetActiveNull;
    TriggerStamps(g);
    SameItself(g);
    if g.next.Some? {
      TriggerStamps(Finish(g));
      SameRings(g, Finish(g), Trigger(Finish(g)));
    }
    match s
    case Schedules(awake) =>
      var h := if g.state == Complete then Done(g, awake) else g;
      TriggerStamps(h);
      SameRings(g, h, Trigger(h));
    case Switches => HardwareStamps(g, s);
    case Reports(_, _) => HardwareStamps(g, s);
    case Slumbers => HardwareStamps(g, s);
    case Interrupts => SameRings(g, g, g.(state := Complete));
    case TimesOut => SameRings(g, g, Timer(g));
    case Works(awake) => SameRings(g, g, Worker(g, awake));
    case Puts(c) => SameRings(g, g, Next(g, s));
    case Faults => SameRings(g, g, Next(g, s));
    case Drops => SameRings(g, g, Next(g, s));
    case Triggers =>
  }

  lemma SameItself(g: Gpu)
    ensures SameStamps(g, g)
    ensures forall t: Gpu :: t.rings == g.rings ==> SameStamps(g, t)
  {
  }

  lemma OtherTime(g: Gpu, t: Gpu)
    requires TimeInv(g) && Inv(t) && SameStamps(g, t)
    ensures TimeInv(t) && Rises(g, t)
  {
    hide Inv, TimeOk;
    forall i | 0 <= i < |g.rings|
      ensures TimeOk(t.rings[i])
    {
      SameTimes(g.rings[i], t.rings[i]);
    }
  }

  lemma ExecutesTime(g: Gpu, s: Step)
    requires TimeInv(g) && Enabled(g, s) && s.Executes?
    ensures TimeInv(Next(g, s)) && Rises(g, Next(g, s))
  {
    hide TimeInv, Rises, ExecCmd;
    ExecTime(g);
  }

  lemma RestartsTime(g: Gpu, s: Step)
    requires TimeInv(g) && Enabled(g, s) && s.Restarts?
    ensures TimeInv(Next(g, s)) && Rises(g, Next(g, s))
  {
    hide TimeInv, Rises, Restart;
    RestartTime(g, s.fault);
  }

  lemma OthersTime(g: Gpu, s: Step)
    requires TimeInv(g) && Enabled(g, s) && !Loads(s) && !s.Executes? && !s.Restarts?
    ensures TimeInv(Next(g, s)) && Rises(g, Next(g, s))
  {
    assert Inv(g) && Indexed(g);
    hide Inv, TimeInv, Rises, Next, Enabled, SameStamps, Loads;
    StepInv(g, s);
    OtherStamps(g, s);
    OtherTime(g, Next(g, s));
  }

  lemma StepTime(g: Gpu, s: Step)
    requires TimeInv(g) && Enabled(g, s)
    ensures TimeInv(Next(g, s)) && Rises(g, Next(g, s))
  {
    hide TimeInv, Rises, Next, Enabled;
    if Loads(s) {
      LoadTime(g, s);
    } else if s.Executes? {
      ExecutesTime(g, s);
    } else if s.Restarts? {
      RestartsTime(g, s);
    } else {
      OthersTime(g, s);
    }
  }

  lemma {:induction false} RunTime(g: Gpu, steps: seq<Step>)
    requires TimeInv(g) && Runs(g, steps)
    ensures TimeInv(After(g, steps)) && Rises(g, After(g, steps))
    decreases steps
  {
    hide TimeInv, Next, Enabled;
    if steps != [] {
      StepTime(g, steps[0]);
      RunTime(Next(g, steps[0]), steps[1..]);
    }
  }

  /** In every reachable state each ring has retired no more than it has consumed and consumed no more
      than it was given, although some submissions take a timestamp and then fail; an end of pipe is
      always a higher value than all before it, and nothing lowers the retired value. */
  lemma TimestampOrder(g: Gpu, steps: seq<Step>, s: Step)
    requires Init(g) && Runs(g, steps) && Enabled(After(g, steps), s)
    ensures var t := After(g, steps);
            && (forall i :: 0 <= i < |t.rings| ==>
                  t.rings[i].retired <= t.rings[i].consumed <= t.rings[i].timestamp)
            && Rises(t, Next(t, s))
            && (s.Executes? ==> var x := t.rings[t.hw];
                                (x.stream[x.pos].Eop? <==> x.retired < Next(t, s).rings[t.hw].retired))
  {
    hide Inv, TimeOk, Rises, Next;
    InitInv(g);
    InitTime(g);
    RunTime(g, steps);
    var t := After(g, steps);
    StepTime(t, s);
    StampsOrdered(t);
    if s.Executes? { ExecRaises(t); }
  }

  lemma StampsOrdered(g: Gpu)
    requires TimeInv(g)
    ensures forall i :: 0 <= i < |g.rings| ==>
              g.rings[i].retired <= g.rings[i].consumed <= g.rings[i].timestamp
  {
    hide Inv;
  }

  lemma ExecRaises(g: Gpu)
    requires TimeInv(g) && Enabled(g, Executes)
    ensures Next(g, Executes) == ExecCmd(g)
    ensures var x := g.rings[g.hw]; x.stream[x.pos].Eop? <==> x.retired < ExecCmd(g).rings[g.hw].retired
  {
    hide Inv, ExecCmd;
    ExecTime(g);
  }

  lemma InitTime(g: Gpu)
    requires Init(g) && Inv(g)
    ensures TimeInv(g)
  {
    hide Inv;
  }
}
