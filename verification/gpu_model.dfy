/** The a5xx ringbuffers, the preemption state machine, and the GPU that works through them.
    Whole handlers are steps; the class Device (device.dfy) carries the handlers themselves out. */
module GpuModel {
  import opened Wrappers
  import opened Pm4
  import R = RingSpace
  import S = A5xxStream

  datatype PreemptState = NoPreempt | Started | Triggered | Faulted | Pending | Complete

  /** A draw context: its id and the page table of its process. */
  datatype Ctx = Ctx(id: nat, table: u64)

  /** What the GPU does for a ring, command by command. */
  datatype Cmd =
    | Install(table: u64)   // page table update
    | Record(table: u64)    // write of the ring's scratch ttbr0
    | Sop(ts: nat)          // start-of-pipe timestamp of the ring
    | Eop(ts: nat)          // end-of-pipe timestamp of the ring
    | Buffer(ctx: Ctx)      // an indirect buffer submitted for a context
    | YieldPoint

  /** A ring. Offsets are running totals, in commands and in dwords: the stream holds every command since
      the last start, its length is the write offset, `pos` is how far the GPU is and `rptr` how far it has
      reported; `written` and `read` are the write offset and the reported one in dwords. */
  datatype Ring = Ring(
    stream: seq<Cmd>,
    pos: nat,
    rptr: nat,
    written: nat,
    read: nat,
    record: nat,            // wptr field of the preemption record
    scratch: u64,           // scratch ttbr0
    active: Option<Ctx>,
    timestamp: nat,
    consumed: nat,
    retired: nat)
  {
    function Wptr(): nat { |stream| }
    predicate Empty() { rptr == Wptr() }

    /** What the allocator answers to a submission of the caller's `dwords`. */
    function Slot(dwords: nat): R.Space {
      R.Alloc(written % R.RB_DWORDS, read % R.RB_DWORDS, S.SUBMIT_MAX + dwords)
    }
  }

  /** The size of a submission: the caller's dwords, and all that were written in the end. */
  datatype Size = Size(dwords: nat, used: nat) {
    predicate Valid() { 0 < used <= S.OVERHEAD_MAX + dwords }
  }

  datatype Gpu = Gpu(
    state: PreemptState,
    cur: nat,
    next: Option<nat>,
    prev: Option<nat>,
    rings: seq<Ring>,
    fault: bool,
    default: u64,           // ttbr0 of the default page table
    reg: nat,               // CP_RB_WPTR
    cntl: bool,             // CP_CONTEXT_SWITCH_CNTL
    restore: nat,           // ring whose record is to be restored
    smmu: u64,              // ttbr0 field of the smmu info
    hw: nat,                // ring the GPU is on
    ttbr0: u64,             // page table the GPU is on
    taken: multiset<Ctx>,   // context references held for switching
    deferred: multiset<Ctx>,
    submitting: Option<(nat, Ctx)>)   // a user command between its two submissions: ring and context

  predicate Indexed(g: Gpu) {
    && g.cur < |g.rings| && g.hw < |g.rings| && g.restore < |g.rings| && (g.next.Some? ==> g.next.value < |g.rings|)
    && (g.submitting.Some? ==> g.submitting.value.0 < |g.rings|)
  }

  /** The first ring from `i` on that is not empty: the highest priority one. */
  function NextRing(rings: seq<Ring>, i: nat): (n: Option<nat>)
    requires i <= |rings|
    ensures n.Some? ==> i <= n.value < |rings| && !rings[n.value].Empty()
    ensures forall k :: i <= k < (if n.Some? then n.value else |rings|) ==> rings[k].Empty()
    decreases |rings| - i
  {
    if i == |rings| then None else if rings[i].Empty() then NextRing(rings, i + 1) else Some(i)
  }

  function UpdateWptr(g: Gpu): Gpu
    requires Indexed(g)
  {
    g.(reg := g.rings[g.cur].Wptr())
  }

  /** The hardware is pointed at ring `n` and told to switch. */
  function Arm(g: Gpu, n: nat): Gpu
    requires n < |g.rings|
  {
    g.(rings := g.rings[n := g.rings[n].(record := g.rings[n].Wptr())],
       smmu := g.rings[n].scratch,
       restore := n,
       next := Some(n),
       state := Triggered,
       cntl := true)
  }

  function Trigger(g: Gpu): (t: Gpu)
    requires Indexed(g)
    ensures Indexed(t) && |t.rings| == |g.rings|
  {
    if g.state != NoPreempt then g
    else
      match NextRing(g.rings, 0)
      case None => g
      case Some(n) =>
        if n == g.cur then UpdateWptr(g)
        else Arm(g, n)
  }

  /** The bookkeeping once the hardware has switched. */
  function Finish(g: Gpu): (t: Gpu)
    requires Indexed(g) && g.next.Some?
    ensures Indexed(t) && |t.rings| == |g.rings|
  {
    UpdateWptr(g.(prev := Some(g.cur), cur := g.next.value, next := None)).(state := NoPreempt)
  }

  function Callback(g: Gpu): (t: Gpu)
    requires Indexed(g) && (g.state == Triggered ==> g.next.Some?)
    ensures Indexed(t) && |t.rings| == |g.rings|
  {
    if g.state != Triggered then g
    else if g.cntl then g.(state := Complete)
    else Trigger(Finish(g))
  }

  function Done(g: Gpu, awake: bool): (t: Gpu)
    requires Indexed(g) && g.next.Some?
    ensures Indexed(t) && |t.rings| == |g.rings|
  {
    if !awake then g else if g.cntl then g.(fault := true) else Finish(g)
  }

  function Schedule(g: Gpu, awake: bool): (t: Gpu)
    requires Indexed(g) && (g.state == Complete ==> g.next.Some?)
    ensures Indexed(t) && |t.rings| == |g.rings|
  {
    Trigger(if g.state == Complete then Done(g, awake) else g)
  }

  function Timer(g: Gpu): Gpu {
    if g.state == Triggered then g.(state := Faulted) else g
  }

  function Worker(g: Gpu, awake: bool): Gpu {
    if g.state != Faulted then g
    else if awake && !g.cntl then g.(state := Complete)
    else g.(fault := true)
  }

  /** The write of the ring's new write offset to the hardware, unless a switch is being made. */
  function HandOver(g: Gpu, r: nat): Gpu
    requires Indexed(g) && r < |g.rings|
  {
    if g.state == NoPreempt && g.cur == r then UpdateWptr(g) else g
  }

  function Buffers(c: Ctx, n: nat): seq<Cmd> { seq(n, _ => Buffer(c)) }

  function Submission(ts: nat, front: seq<Cmd>, body: seq<Cmd>): seq<Cmd> {
    front + [Sop(ts)] + body + [Eop(ts), YieldPoint]
  }

  function SetRing(g: Gpu, r: nat, x: Ring): Gpu
    requires r < |g.rings|
  {
    g.(rings := g.rings[r := x])
  }

  function AddResult(g: Gpu, r: nat, size: Size, detached: bool): Ret
    requires r < |g.rings|
  {
    if detached then NoEntry else if g.fault then Protocol
    else if g.rings[r].Slot(size.dwords) == R.NoSpace then NoSpc else Ok
  }

  /** The dword total behind a submission, counting the NOP over the tail when the ring is gone round. */
  function Advance(x: Ring, size: Size): nat {
    match x.Slot(size.dwords)
    case NoSpace => x.written
    case Space(_, _, wrapped) =>
      (if wrapped then (x.written / R.RB_DWORDS + 1) * R.RB_DWORDS else x.written) + size.used
  }

  function AddCmds(g: Gpu, r: nat, front: seq<Cmd>, body: seq<Cmd>, size: Size, detached: bool): (t: Gpu)
    requires Indexed(g) && r < |g.rings|
    ensures Indexed(t) && |t.rings| == |g.rings|
  {
    var ret := AddResult(g, r, size, detached);
    var x := g.rings[r];
    var ts := x.timestamp + 1;
    if ret == NoEntry || ret == Protocol then g
    else if ret == NoSpc then SetRing(g, r, x.(timestamp := ts))
    else HandOver(SetRing(g, r, x.(timestamp := ts, stream := x.stream + Submission(ts, front, body),
                                   written := Advance(x, size))), r)
  }

  /** The commands that follow the table of the ring's active context to that of another. */
  function SwitchBody(active: Option<Ctx>, c: Ctx, default: u64): seq<Cmd> {
    if (active.Some? && active.value.table == c.table) || c.table == default then []
    else [Install(c.table), Record(c.table)]
  }

  /** The dwords of the commands that switch contexts, with and without a table. */
  function SwitchDwords(body: seq<Cmd>): nat { if body == [] then 12 else 30 }

  /** The answers the rest of the driver gives during a context switch, and the dwords that the submission
      of the switch has in the end. */
  datatype Env = Env(detached: bool, alive: bool, eventOk: bool, used: nat)

  function SwitchSize(g: Gpu, r: nat, c: Ctx, env: Env): Size
    requires r < |g.rings|
  {
    Size(SwitchDwords(SwitchBody(g.rings[r].active, c, g.default)), env.used)
  }

  function SwitchResult(g: Gpu, r: nat, c: Ctx, env: Env): Ret
    requires r < |g.rings|
  {
    if g.rings[r].active == Some(c) then Ok
    else if env.detached || !env.alive then NoEntry
    else Ok
  }

  function PutLater(g: Gpu, active: Option<Ctx>, eventOk: bool): Gpu {
    match active
    case None => g
    case Some(a) =>
      if eventOk then g.(deferred := g.deferred + multiset{a}) else g.(taken := g.taken - multiset{a})
  }

  function SwitchContext(g: Gpu, r: nat, c: Ctx, env: Env): (t: Gpu)
    requires Indexed(g) && r < |g.rings|
    ensures Indexed(t) && |t.rings| == |g.rings|
  {
    if g.rings[r].active == Some(c) || SwitchResult(g, r, c, env) != Ok then g
    else
      var g1 := g.(taken := g.taken + multiset{c});
      // The result of this submission is not looked at.
      var g2 := AddCmds(g1, r, [], SwitchBody(g.rings[r].active, c, g.default), SwitchSize(g, r, c, env), false);
      var g3 := PutLater(g2, g.rings[r].active, env.eventOk);
      SetRing(g3, r, g3.rings[r].(active := Some(c)))
  }

  /** A switch that is not needed, or refused before its submission, does nothing. */
  lemma SwitchRefused(g: Gpu, r: nat, c: Ctx, env: Env)
    requires Indexed(g) && r < |g.rings| && (g.rings[r].active == Some(c) || SwitchResult(g, r, c, env) != Ok)
    ensures SwitchContext(g, r, c, env) == g
  {
  }

  /** What becomes of a submission. A detached context or a fault stops it without a trace, a lack of space leaves
      only its timestamp behind; otherwise its ring has it, between its two stamps, and the register is told exactly
      when no switch is being made and it is the current ring's. */
  lemma SubmissionOutcome(g: Gpu, r: nat, front: seq<Cmd>, body: seq<Cmd>, size: Size, detached: bool)
    requires Indexed(g) && r < |g.rings|
    ensures var t, x := AddCmds(g, r, front, body, size, detached), g.rings[r];
            var ts := x.timestamp + 1;
            if detached || g.fault then t == g
            else if x.Slot(size.dwords) == R.NoSpace then t == g.(rings := g.rings[r := x.(timestamp := ts)])
            else
              var stream := x.stream + front + [Sop(ts)] + body + [Eop(ts), YieldPoint];
              t == g.(rings := g.rings[r := x.(timestamp := ts, stream := stream, written := t.rings[r].written)],
                      reg := if g.state == NoPreempt && g.cur == r then |stream| else g.reg)
  {
    hide Ring.Slot;
    var x, t := g.rings[r], AddCmds(g, r, front, body, size, detached);
    var ts := x.timestamp + 1;
    assert x.stream + Submission(ts, front, body) == x.stream + front + [Sop(ts)] + body + [Eop(ts), YieldPoint];
  }

  /** What a context switch comes to. It is refused exactly when the context is not active yet and is detached or no
      longer alive, and then nothing has happened; it goes ahead with a reference to the new context, and the old one's
      is given back later, or at once if that cannot be arranged. */
  lemma SwitchOutcome(g: Gpu, r: nat, c: Ctx, env: Env)
    requires Indexed(g) && r < |g.rings|
    ensures var t, was := SwitchContext(g, r, c, env), g.rings[r].active;
            if was == Some(c) then t == g && SwitchResult(g, r, c, env) == Ok
            else if env.detached || !env.alive then t == g && SwitchResult(g, r, c, env) == NoEntry
            else
              && SwitchResult(g, r, c, env) == Ok && t.rings[r].active == Some(c)
              && t.taken == (if was.Some? && !env.eventOk then g.taken + multiset{c} - multiset{was.value}
                             else g.taken + multiset{c})
              && t.deferred == (if was.Some? && env.eventOk then g.deferred + multiset{was.value} else g.deferred)
  {
    hide AddCmds, SwitchBody;
    var g1 := g.(taken := g.taken + multiset{c});
    AddKeeps(g1, r, [], SwitchBody(g.rings[r].active, c, g.default), SwitchSize(g, r, c, env), false);
  }

  lemma AddStamps(g: Gpu, r: nat, front: seq<Cmd>, body: seq<Cmd>, size: Size, detached: bool)
    requires Indexed(g) && r < |g.rings| && !detached && !g.fault
    ensures AddCmds(g, r, front, body, size, detached).rings[r].timestamp == g.rings[r].timestamp + 1
  {
  }

  lemma AddKeeps(g: Gpu, r: nat, front: seq<Cmd>, body: seq<Cmd>, size: Size, detached: bool)
    requires Indexed(g) && r < |g.rings|
    ensures var t := AddCmds(g, r, front, body, size, detached);
            t.taken == g.taken && t.deferred == g.deferred && t.rings[r].active == g.rings[r].active
  {
  }

  /** A user command up to its own submission: the context switch. */
  function Begin(g: Gpu, r: nat, c: Ctx, env: Env): (t: Gpu)
    requires Indexed(g) && r < |g.rings|
    ensures Indexed(t) && |t.rings| == |g.rings|
  {
    var g1 := SwitchContext(g, r, c, env);
    if SwitchResult(g, r, c, env) == Ok then g1.(submitting := Some((r, c))) else g1
  }

  /** A command whose switch is refused leaves everything as it was; any other is on its way to its submission, with its
      context active on its ring. */
  lemma BeginOutcome(g: Gpu, r: nat, c: Ctx, env: Env)
    requires Indexed(g) && r < |g.rings|
    ensures var t := Begin(g, r, c, env);
            if g.rings[r].active != Some(c) && (env.detached || !env.alive) then t == g
            else t.submitting == Some((r, c)) && t.rings[r].active == Some(c)
  {
    hide SwitchContext, SwitchResult;
    SwitchOutcome(g, r, c, env);
  }

  /** The rest of it: `front` profiling buffers, the start, and `n` buffers. */
  function Submit(g: Gpu, front: nat, n: nat, size: Size, detached: bool): (t: Gpu)
    requires Indexed(g) && g.submitting.Some?
    ensures Indexed(t) && |t.rings| == |g.rings|
  {
    var (r, c) := g.submitting.value;
    AddCmds(g, r, Buffers(c, front), Buffers(c, n), size, detached).(submitting := None)
  }

  /** The whole command, with nothing in between. */
  function SubmitCmd(g: Gpu, r: nat, c: Ctx, front: nat, n: nat, env: Env, size: Size, detached: bool): (t: Gpu)
    requires Indexed(g) && r < |g.rings|
    ensures Indexed(t) && |t.rings| == |g.rings|
  {
    var g1 := Begin(g, r, c, env);
    if SwitchResult(g, r, c, env) == Ok then Submit(g1, front, n, size, detached) else g1
  }

  function Ref(active: Option<Ctx>): multiset<Ctx> {
    if active.Some? then multiset{active.value} else multiset{}
  }

  function ActiveRefs(rings: seq<Ring>): multiset<Ctx> {
    if rings == [] then multiset{} else ActiveRefs(rings[..|rings| - 1]) + Ref(rings[|rings| - 1].active)
  }

  function Idle(x: Ring): Ring { x.(active := None) }

  function AllIdle(rings: seq<Ring>): (r: seq<Ring>)
    ensures |r| == |rings|
  {
    seq(|rings|, i requires 0 <= i < |rings| => Idle(rings[i]))
  }

  function SetActiveNull(g: Gpu): (t: Gpu)
    ensures |t.rings| == |g.rings|
  {
    g.(taken := g.taken - ActiveRefs(g.rings),
       rings := AllIdle(g.rings))
  }

  /** Preemption start: the state is forced clear (next is left alone), records and scratch are reset. */
  function Start(g: Gpu): (t: Gpu)
    ensures |t.rings| == |g.rings|
  {
    g.(state := NoPreempt,
       smmu := g.default,
       rings := seq(|g.rings|, i requires 0 <= i < |g.rings| =>
                    g.rings[i].(record := 0, scratch := g.default)))
  }

  /** Ring start: all rings empty. */
  function ClearRings(g: Gpu): (t: Gpu)
    ensures |t.rings| == |g.rings|
  {
    g.(rings := seq(|g.rings|, i requires 0 <= i < |g.rings| =>
                    g.rings[i].(stream := [], pos := 0, rptr := 0, written := 0, read := 0)))
  }

  /** After a fault the ring found on the hardware becomes current and all it was given counts as retired. */
  function Blame(g: Gpu): (t: Gpu)
    requires Indexed(g)
    ensures Indexed(t) && |t.rings| == |g.rings|
  {
    var x := g.rings[g.hw];
    var g1 := SetRing(g, g.hw, x.(consumed := x.timestamp, retired := x.timestamp));
    if g.cur == g.hw then g1 else g1.(prev := Some(g.cur), cur := g.hw)
  }

  function Booted(g: Gpu): Gpu {
    g.(fault := false, reg := 0, cntl := false, hw := g.cur, ttbr0 := g.default)
  }

  /** Recovery or power-up: the GPU comes back on the current ring, with the default page table. */
  function Restart(g: Gpu, fault: bool): (t: Gpu)
    requires Indexed(g)
    ensures Indexed(t) && |t.rings| == |g.rings|
  {
    var g1 := if fault then Blame(g) else g;
    Booted(ClearRings(Start(SetActiveNull(g1))))
  }

  /** What a restart leaves of each ring: nothing to do, and of its stamps all as they were, except that after a fault
      everything given to the ring found on the hardware counts as started and done. */
  lemma RestartedRing(g: Gpu, fault: bool, i: nat)
    requires Indexed(g) && i < |g.rings|
    ensures var was := g.rings[i];
            var blamed := fault && i == g.hw;
            Restart(g, fault).rings[i] ==
            Ring([], 0, 0, 0, 0, 0, g.default, None, was.timestamp,
                 if blamed then was.timestamp else was.consumed, if blamed then was.timestamp else was.retired)
  {
    hide Blame, SetActiveNull, Start, ClearRings;
    var g1 := if fault then Blame(g) else g;
    if fault { BlamedRing(g, i); }
    ClearedRing(g1, i);
  }

  lemma BlamedRing(g: Gpu, i: nat)
    requires Indexed(g) && i < |g.rings|
    ensures Blame(g).default == g.default
    ensures Blame(g).rings[i] ==
            if i == g.hw then g.rings[i].(consumed := g.rings[i].timestamp, retired := g.rings[i].timestamp)
            else g.rings[i]
  {
  }

  lemma ClearedRing(g: Gpu, i: nat)
    requires i < |g.rings|
    ensures ClearRings(Start(SetActiveNull(g))).rings[i] ==
            Ring([], 0, 0, 0, 0, 0, g.default, None, g.rings[i].timestamp, g.rings[i].consumed, g.rings[i].retired)
  {
    hide ActiveRefs;
  }

  /** And of the rest: the GPU is on the current ring, which after a fault is the one that was found on it, with the
      default table, an empty ring's write pointer, and no switch or fault pending. */
  lemma RestartOutcome(g: Gpu, fault: bool)
    requires Indexed(g)
    ensures var t := Restart(g, fault);
            && t.state == NoPreempt && t.cur == t.hw == (if fault then g.hw else g.cur) && t.reg == 0 && !t.cntl
            && t.ttbr0 == t.smmu == t.default == g.default && !t.fault
            && t.prev == (if fault && g.cur != g.hw then Some(g.cur) else g.prev)
            && (t.next, t.restore, t.deferred, t.submitting) == (g.next, g.restore, g.deferred, g.submitting)
  {
  }

  /** The GPU carries out one command of the ring it is on. */
  function ExecCmd(g: Gpu): (t: Gpu)
    requires Indexed(g) && g.rings[g.hw].pos < |g.rings[g.hw].stream|
    ensures Indexed(t) && |t.rings| == |g.rings|
  {
    var x := g.rings[g.hw].(pos := g.rings[g.hw].pos + 1);
    match g.rings[g.hw].stream[g.rings[g.hw].pos]
    case Install(t) => SetRing(g, g.hw, x).(ttbr0 := t)
    case Record(t) => SetRing(g, g.hw, x.(scratch := t))
    case Sop(ts) => SetRing(g, g.hw, x.(consumed := ts))
    case Eop(ts) => SetRing(g, g.hw, x.(retired := ts))
    case Buffer(_) => SetRing(g, g.hw, x)
    case YieldPoint => SetRing(g, g.hw, x)
  }

  /** Not between a page table update and its record. */
  predicate SafePoint(x: Ring) {
    x.pos <= |x.stream| && (x.pos == 0 || !x.stream[x.pos - 1].Install?)
  }

  /** The GPU saves the ring it is on and restores the one it was pointed at. */
  function HwSwitch(g: Gpu): (t: Gpu)
    requires Indexed(g)
    ensures Indexed(t) && |t.rings| == |g.rings|
  {
    var saved := SetRing(g, g.hw, g.rings[g.hw].(record := g.reg));
    saved.(hw := g.restore, reg := saved.rings[g.restore].record, ttbr0 := g.smmu, cntl := false)
  }

  datatype Step =
    | Begins(ring: nat, ctx: Ctx, env: Env)
    | Submits(front: nat, n: nat, size: Size, detached: bool)
    | Internal(ring: nat, size: Size)   // a submission for no context, and without buffers
    | Faults
    | Drops                             // a fault is taken up and dropped, without a restart
    | Triggers
    | Interrupts
    | Schedules(awake: bool)
    | TimesOut
    | Works(awake: bool)
    | Slumbers
    | Restarts(fault: bool)
    | Puts(ctx: Ctx)
    | Executes
    | Reports(upto: nat, dwords: nat)
    | Switches

  /** A read offset the GPU can report, and the same in dwords. */
  predicate Reported(x: Ring, v: nat, d: nat) {
    x.rptr <= v <= x.pos && x.read <= d <= x.written && (v == x.Wptr() <==> d == x.written)
  }

  /** What needs the device mutex waits for a user command to have made both its submissions. */
  predicate Enabled(g: Gpu, s: Step) {
    Indexed(g) &&
    match s
    case Begins(r, c, env) => g.submitting.None? && r < |g.rings| && SwitchSize(g, r, c, env).Valid()
    case Submits(_, _, size, _) => g.submitting.Some? && size.Valid()
    case Internal(r, size) => g.submitting.None? && r < |g.rings| && size.Valid()
    case Interrupts => g.state == Triggered ==> g.next.Some?
    case Schedules(_) => g.submitting.None? && (g.state == Complete ==> g.next.Some?)
    case Works(_) => g.submitting.None?
    case Slumbers => g.submitting.None?
    case Restarts(_) => g.submitting.None?
    case Drops => g.submitting.None?
    case Puts(c) => c in g.deferred
    case Executes => g.rings[g.hw].pos < g.reg && g.rings[g.hw].pos < |g.rings[g.hw].stream|
    case Reports(v, d) => Reported(g.rings[g.hw], v, d)
    case Switches => g.cntl && SafePoint(g.rings[g.hw])
    case _ => true
  }

  function Next(g: Gpu, s: Step): (t: Gpu)
    requires Enabled(g, s)
    ensures Indexed(t) && |t.rings| == |g.rings|
  {
    match s
    case Begins(r, c, env) => Begin(g, r, c, env)
    case Submits(front, n, size, detached) => Submit(g, front, n, size, detached)
    case Internal(r, size) => AddCmds(g, r, [], [], size, false)
    case Faults => g.(fault := true)
    case Drops => g.(fault := false)
    case Triggers => Trigger(g)
    case Interrupts => Callback(g)
    case Schedules(awake) => Schedule(g, awake)
    case TimesOut => Timer(g)
    case Works(awake) => Worker(g, awake)
    case Slumbers => SetActiveNull(g)
    case Restarts(fault) => Restart(g, fault)
    case Puts(c) => g.(taken := g.taken - multiset{c}, deferred := g.deferred - multiset{c})
    case Executes => ExecCmd(g)
    case Reports(v, d) => SetRing(g, g.hw, g.rings[g.hw].(rptr := v, read := d))
    case Switches => HwSwitch(g)
  }

  /** Every step of the list is possible when it is taken. */
  predicate Runs(g: Gpu, steps: seq<Step>)
    decreases steps
  {
    steps == [] || (Enabled(g, steps[0]) && Runs(Next(g, steps[0]), steps[1..]))
  }

  function After(g: Gpu, steps: seq<Step>): Gpu
    requires Runs(g, steps)
    decreases steps
  {
    if steps == [] then g else After(Next(g, steps[0]), steps[1..])
  }

  /** Power-on: all rings empty, the GPU on ring 0 with the default page table. */
  predicate Init(g: Gpu) {
    && Indexed(g) && g.state == NoPreempt && g.cur == g.hw == 0 && g.reg == 0 && !g.cntl && g.ttbr0 == g.default
    && g.taken == multiset{} && g.deferred == multiset{} && g.submitting == None
    && forall i :: 0 <= i < |g.rings| ==> g.rings[i] == Ring([], 0, 0, 0, 0, 0, g.default, None, 0, 0, 0)
  }
}
