/** What becomes of a user command whose context switch finds no room: the refusal is not looked at. */
module LostSwitch {
  import opened Wrappers
  import opened Pm4
  import opened GpuModel
  import opened PreemptSafety
  import opened AddressSpace
  import R = RingSpace

  lemma HousedFirst(s: seq<Cmd>, ts: nat, c: Ctx, front: nat, n: nat, default: u64)
    requires Bracketed(s) && Housed(s, default) && c.table != default && front + n > 0
    ensures Housed(s + Submission(ts, Buffers(c, front), Buffers(c, n)), default) <==> Table(s, default) == c.table
  {
    var t := s + Submission(ts, Buffers(c, front), Buffers(c, n));
    if Table(s, default) == c.table {
      UserStream(s, ts, c, front, n, default);
    } else {
      var k := if front > 0 then |s| else |s| + 1;
      assert t[k] == Buffer(c);
      TableSnoc(s, Sop(ts), default);
      assert t[..k] == if front > 0 then s else s + [Sop(ts)];
    }
  }

  /** The ring of a command that has begun, before its own submission: its table is that of the context
      exactly when the switch landed or when the table happens to be the ring's last one. */
  lemma BegunRing(g: Gpu, r: nat, c: Ctx, env: Env)
    requires AddrInv(g) && r < |g.rings| && g.submitting.None? && SwitchSize(g, r, c, env).Valid()
    requires SwitchResult(g, r, c, env) == Ok && !g.fault && c.table != g.default
    ensures var s := Begin(g, r, c, env).rings[r].stream;
            && Bracketed(s) && Housed(s, g.default)
            && (Table(s, g.default) == c.table
                <==> SwitchLands(g, r, c) || Table(g.rings[r].stream, g.default) == c.table)
    ensures Begin(g, r, c, env).default == g.default && Begin(g, r, c, env).submitting == Some((r, c))
    ensures Begin(g, r, c, env).fault == g.fault
  {
    assert Indexed(g);
    hide Bracketed, Housed, Table, AddrInv, SwitchLands, SwitchContext, SwitchSize, Extended;
    SwitchContextShape(g, r, c, env);
    ShapeKeeps(g, SwitchContext(g, r, c, env), r);
    if SwitchLands(g, r, c) {
      SwitchAddr(g, r, c, env);
      RingHoused(SwitchContext(g, r, c, env), r);
    } else {
      RingHoused(g, r);
      NotLanded(g, r, c, env);
    }
  }

  lemma ShapeKeeps(g: Gpu, t: Gpu, r: nat)
    requires Extended(g, t, r)
    ensures t.default == g.default && t.fault == g.fault
  {
  }

  lemma RingHoused(g: Gpu, r: nat)
    requires AddrInv(g) && r < |g.rings|
    ensures var x := g.rings[r];
            && Bracketed(x.stream) && Housed(x.stream, g.default)
            && (!g.fault && x.active.Some? && x.active.value.table != g.default
                ==> Table(x.stream, g.default) == x.active.value.table)
  {
    hide Bracketed, Housed, Table;
  }

  lemma NotLanded(g: Gpu, r: nat, c: Ctx, env: Env)
    requires AddrInv(g) && r < |g.rings| && !SwitchLands(g, r, c)
    requires SwitchResult(g, r, c, env) == Ok && !g.fault
    ensures SwitchContext(g, r, c, env).rings[r].stream == g.rings[r].stream
  {
    assert Indexed(g);
    hide AddrInv, AddCmds, SwitchContext, Advance, Submission;
    SwitchContextRing(g, r, c, env);
  }

  /** Between the two submissions of a command: nobody else submits or restarts, and streams stay. */
  predicate Holding(g: Gpu, t: Gpu, r: nat) {
    && r < |g.rings| == |t.rings| && t.submitting == g.submitting && t.default == g.default
    && t.rings[r].stream == g.rings[r].stream && t.rings[r].active == g.rings[r].active
    && t.rings[r].written == g.rings[r].written && (g.fault ==> t.fault)
  }

  lemma FinishHolds(g: Gpu, r: nat)
    requires Indexed(g) && g.next.Some? && r < |g.rings|
    ensures Holding(g, Finish(g), r)
  {
  }

  lemma TriggerHolds(g: Gpu, r: nat)
    requires Indexed(g) && r < |g.rings|
    ensures Holding(g, Trigger(g), r)
  {
  }

  lemma CallbackHolds(g: Gpu, r: nat)
    requires Enabled(g, Interrupts) && r < |g.rings|
    ensures Holding(g, Callback(g), r)
  {
    hide Trigger, Finish;
    if g.state == Triggered && !g.cntl {
      FinishHolds(g, r);
      TriggerHolds(Finish(g), r);
    }
  }

  lemma HardwareHolds(g: Gpu, s: Step, r: nat)
    requires Enabled(g, s) && r < |g.rings| && (s.Executes? || s.Reports? || s.Switches?)
    ensures Holding(g, Next(g, s), r)
  {
    hide ExecCmd;
    if s.Executes? { ExecShape(g); }
  }

  lemma HoldingStep(g: Gpu, s: Step, r: nat)
    requires Enabled(g, s) && g.submitting.Some? && !s.Submits? && r < |g.rings|
    ensures Holding(g, Next(g, s), r)
  {
    hide Trigger, Callback, ExecCmd, HwSwitch, SetRing;
    match s
    case Triggers => TriggerHolds(g, r);
    case Interrupts => CallbackHolds(g, r);
    case Executes => HardwareHolds(g, s, r);
    case Reports(_, _) => HardwareHolds(g, s, r);
    case Switches => HardwareHolds(g, s, r);
    case _ =>
  }

  lemma {:induction false} HoldingRun(g: Gpu, steps: seq<Step>, r: nat)
    requires Indexed(g) && Runs(g, steps) && g.submitting.Some? && r < |g.rings|
    requires forall s :: s in steps ==> !s.Submits?
    ensures Indexed(After(g, steps)) && Holding(g, After(g, steps), r)
    decreases steps
  {
    if steps != [] {
      assert steps[0] in steps && forall s :: s in steps[1..] ==> s in steps;
      hide Next, Enabled, Indexed;
      HoldingStep(g, steps[0], r);
      HoldingRun(Next(g, steps[0]), steps[1..], r);
    }
  }

  /** The result of the switch submission is not looked at, so an accepted user submission can go in behind
      the wrong table. Whatever happens between the two submissions, the command's buffers are at home
      exactly when the allocator had room for the switch, or the table happened to be the ring's last. */
  lemma SubmissionAtHomeIff(g: Gpu, r: nat, c: Ctx, env: Env, between: seq<Step>, front: nat, n: nat, size: Size,
                            detached: bool)
    requires AddrInv(g) && Enabled(g, Begins(r, c, env)) && SwitchResult(g, r, c, env) == Ok
    requires c.table != g.default && front + n > 0
    requires Runs(Begin(g, r, c, env), between) && forall s :: s in between ==> !s.Submits?
    requires var t := After(Begin(g, r, c, env), between);
             && Enabled(t, Submits(front, n, size, detached)) && r < |t.rings|
             && AddResult(t, r, size, detached) == Ok
    ensures var t := Next(After(Begin(g, r, c, env), between), Submits(front, n, size, detached));
            && r < |t.rings|
            && (Housed(t.rings[r].stream, g.default)
                <==> SwitchLands(g, r, c) || Table(g.rings[r].stream, g.default) == c.table)
  {
    var g1 := Begin(g, r, c, env);
    var g2 := After(g1, between);
    hide AddrInv, Housed, Bracketed, Table, SwitchLands, Begin, Runs, After, Submission, Buffers, Next, AddResult;
    BeginKeeps(g, r, c, env);
    HoldingRun(g1, between, r);
    AcceptedStream(g2, r, c, front, n, size, detached);
    BegunRing(g, r, c, env);
    HousedFirst(g1.rings[r].stream, g2.rings[r].timestamp + 1, c, front, n, g.default);
  }

  lemma AcceptedStream(g: Gpu, r: nat, c: Ctx, front: nat, n: nat, size: Size, detached: bool)
    requires Enabled(g, Submits(front, n, size, detached)) && g.submitting == Some((r, c))
    requires AddResult(g, r, size, detached) == Ok
    ensures var t := Next(g, Submits(front, n, size, detached));
            && !g.fault && r < |t.rings|
            && t.rings[r].stream ==
               g.rings[r].stream + Submission(g.rings[r].timestamp + 1, Buffers(c, front), Buffers(c, n))
  {
    hide Submission, AddCmds, Advance, Buffers;
    AddCmdsRing(g, r, Buffers(c, front), Buffers(c, n), size, detached);
  }

  lemma BeginKeeps(g: Gpu, r: nat, c: Ctx, env: Env)
    requires Indexed(g) && r < |g.rings| && SwitchResult(g, r, c, env) == Ok
    ensures var t := Begin(g, r, c, env);
            && t.submitting == Some((r, c)) && r < |t.rings| && t.fault == g.fault && t.default == g.default
  {
    hide SwitchContext;
    SwitchContextShape(g, r, c, env);
  }

  lemma TableCons(c: Cmd, s: seq<Cmd>, table: u64)
    ensures Table([c] + s, table) == Table(s, if c.Install? then c.table else table)
    decreases |s|
  {
    if s == [] {
      assert [c] + s == [c] && [c][..0] == [];
    } else {
      assert ([c] + s)[..|s|] == [c] + s[..|s| - 1];
      TableCons(c, s[..|s| - 1], table);
    }
  }

  lemma OneStep(g: Gpu, s: Step, t: Gpu, steps: seq<Step>)
    requires Enabled(g, s) && Next(g, s) == t && Runs(t, steps)
    ensures Runs(g, [s] + steps) && After(g, [s] + steps) == After(t, steps)
  {
    assert ([s] + steps)[1..] == steps;
  }

  function Execution(k: nat): seq<Step> { if k == 0 then [] else [Executes] + Execution(k - 1) }

  /** The GPU has carried out `k` commands of one ring, and nothing else has happened. */
  predicate Executed(g: Gpu, t: Gpu, k: nat)
    requires Indexed(g)
  {
    var x := g.rings[g.hw];
    && Indexed(t) && t.hw == g.hw && t.reg == g.reg && t.default == g.default
    && t.rings[t.hw].stream == x.stream && t.rings[t.hw].pos == x.pos + k <= x.Wptr()
    && t.ttbr0 == Table(x.stream[x.pos..x.pos + k], g.ttbr0)
  }

  lemma ExecutesOne(g: Gpu)
    requires Indexed(g) && g.rings[g.hw].pos < g.reg <= g.rings[g.hw].Wptr()
    ensures Enabled(g, Executes) && Executed(g, Next(g, Executes), 1)
  {
    hide ExecCmd;
    ExecShape(g);
    var x := g.rings[g.hw];
    assert x.stream[x.pos..x.pos + 1] == [x.stream[x.pos]] + [];
    TableCons(x.stream[x.pos], [], g.ttbr0);
  }

  lemma ExecutedNone(g: Gpu)
    requires Indexed(g) && g.rings[g.hw].pos <= g.rings[g.hw].Wptr()
    ensures Executed(g, g, 0) && Runs(g, []) && After(g, []) == g
  {
  }

  lemma TableOfMore(s: seq<Cmd>, i: nat, k: nat, table: u64)
    requires i + k + 1 <= |s|
    ensures Table(s[i..i + k + 1], table) == Table(s[i + 1..i + 1 + k], Table(s[i..i + 1], table))
  {
    hide Table;
    var c, cs := s[i], s[i + 1..i + 1 + k];
    assert s[i..i + 1] == [c] + [] && s[i..i + k + 1] == [c] + cs;
    TableCons(c, [], table);
    TableCons(c, cs, table);
    NoTable(if c.Install? then c.table else table);
  }

  lemma NoTable(table: u64)
    ensures Table([], table) == table
  {
  }

  lemma ExecutedMore(g: Gpu, u: Gpu, t: Gpu, k: nat)
    requires Indexed(g) && Executed(g, u, 1) && Executed(u, t, k)
    ensures Executed(g, t, k + 1)
  {
    hide Table;
    TableOfMore(g.rings[g.hw].stream, g.rings[g.hw].pos, k, g.ttbr0);
  }

  /** What `k` commands of one ring leave behind when nothing interrupts them. */
  lemma {:induction false} ExecutionRuns(g: Gpu, k: nat)
    requires Indexed(g) && g.rings[g.hw].pos + k <= g.reg <= g.rings[g.hw].Wptr()
    ensures Runs(g, Execution(k)) && Executed(g, After(g, Execution(k)), k)
    decreases k
  {
    hide Next, Enabled, Executed, Runs, After;
    if k == 0 {
      ExecutedNone(g);
    } else {
      ExecutesOne(g);
      var u := Next(g, Executes);
      ExecutedIs(g, u);
      ExecutionRuns(u, k - 1);
      OneStep(g, Executes, u, Execution(k - 1));
      ExecutedMore(g, u, After(u, Execution(k - 1)), k - 1);
    }
  }

  lemma ExecutedIs(g: Gpu, t: Gpu)
    requires Indexed(g) && Executed(g, t, 1)
    ensures Indexed(t) && t.reg == g.reg && t.rings[t.hw].pos == g.rings[g.hw].pos + 1
    ensures t.rings[t.hw].Wptr() == g.rings[g.hw].Wptr()
  {
    hide Table;
  }

  /** A GPU with one ring, as it is powered on. */
  function OneRing(default: u64): Gpu {
    Gpu(NoPreempt, 0, None, None, [Ring([], 0, 0, 0, 0, 0, default, None, 0, 0, 0)], false, default,
        0, false, 0, default, 0, default, multiset{}, multiset{}, None)
  }

  /** The sizes of a command of `n` buffers, without profiling, and of a switch of tables; stream_meaning.dfy
      counts them. */
  function CommandSize(n: nat): Size { Size(12 + 4 * n, 55 + 4 * n) }
  const SWITCH_USED := 68

  /** The buffers after which the ring has room for a command of one buffer and not for a switch. */
  const MANY := 1995

  function Switching(): Env { Env(false, true, true, SWITCH_USED) }

  /** Context `d` submits a long command, and `c` one of a single buffer. */
  function Commands(c: Ctx, d: Ctx): seq<Step> {
    [Begins(0, d, Switching())] + ([Submits(0, MANY, CommandSize(MANY), false)]
    + ([Begins(0, c, Switching())] + ([Submits(0, 1, CommandSize(1), false)] + Execution(MANY + 9))))
  }

  function FirstStream(d: Ctx, n: nat): seq<Cmd> {
    Submission(1, [], [Install(d.table), Record(d.table)]) + Submission(2, [], Buffers(d, n))
  }

  /** After a command of `n` buffers; nearly full if they are many. */
  function Filled(d: Ctx, default: u64, n: nat): Gpu {
    var s := FirstStream(d, n);
    OneRing(default).(rings := [Ring(s, 0, 0, 123 + 4 * n, 0, 0, default, Some(d), 2, 0, 0)], reg := |s|,
                      taken := multiset{d})
  }

  /** The ring after the switch to `d`, which has room. */
  function Begun(d: Ctx, default: u64): Gpu {
    var s := Submission(1, [], [Install(d.table), Record(d.table)]);
    OneRing(default).(rings := [Ring(s, 0, 0, 68, 0, 0, default, Some(d), 1, 0, 0)], reg := |s|,
                      taken := multiset{d}, submitting := Some((0, d)))
  }

  lemma LongBegins(d: Ctx, default: u64)
    requires d.table != default
    ensures var g := OneRing(default);
            Enabled(g, Begins(0, d, Switching())) && Next(g, Begins(0, d, Switching())) == Begun(d, default)
  {
    var s := Submission(1, [], [Install(d.table), Record(d.table)]);
    assert [] + s == s;
  }

  lemma LongSubmits(d: Ctx, default: u64, n: nat)
    requires n <= MANY
    ensures var g, s := Begun(d, default), Submits(0, n, CommandSize(n), false);
            Enabled(g, s) && Next(g, s) == Filled(d, default, n)
  {
    hide Buffers;
    NoBuffers(d);
  }

  lemma LongCommand(d: Ctx, default: u64, n: nat, rest: seq<Step>)
    requires d.table != default && n <= MANY && Runs(Filled(d, default, n), rest)
    ensures var steps := [Begins(0, d, Switching())] + ([Submits(0, n, CommandSize(n), false)] + rest);
            Runs(OneRing(default), steps) && After(OneRing(default), steps) == After(Filled(d, default, n), rest)
  {
    hide Runs, After, Enabled, Next, OneRing, Begun, Filled;
    LongBegins(d, default);
    LongSubmits(d, default, n);
    var submits := Submits(0, n, CommandSize(n), false);
    OneStep(Begun(d, default), submits, Filled(d, default, n), rest);
    OneStep(OneRing(default), Begins(0, d, Switching()), Begun(d, default), [submits] + rest);
  }

  lemma NoBuffers(c: Ctx)
    ensures Buffers(c, 0) == [] && Buffers(c, 1) == [Buffer(c)]
  {
  }

  function BothStream(c: Ctx, d: Ctx): seq<Cmd> { FirstStream(d, MANY) + [Sop(4), Buffer(c), Eop(4), YieldPoint] }

  function Lost(c: Ctx, d: Ctx, default: u64): Gpu {
    var s := BothStream(c, d);
    OneRing(default).(rings := [Ring(s, 0, 0, 8162, 0, 0, default, Some(c), 4, 0, 0)], reg := |s|,
                      taken := multiset{d} + multiset{c}, deferred := multiset{d})
  }

  /** The ring after the switch to `c`, which has none: the stamp is used up and the context is active. */
  function Refused(c: Ctx, d: Ctx, default: u64): Gpu {
    var s := FirstStream(d, MANY);
    Filled(d, default, MANY).(rings := [Ring(s, 0, 0, 8103, 0, 0, default, Some(c), 3, 0, 0)],
                            submitting := Some((0, c)), taken := multiset{d} + multiset{c}, deferred := multiset{d})
  }

  /** The allocator refuses the switch, and the timestamp is gone. */
  lemma NoRoom(d: Ctx, default: u64, taken: multiset<Ctx>, body: seq<Cmd>)
    ensures var g := Filled(d, default, MANY).(taken := taken);
            AddCmds(g, 0, [], body, Size(30, SWITCH_USED), false) ==
            g.(rings := [g.rings[0].(timestamp := 3)])
  {
    hide FirstStream, Submission, HandOver, Advance;
  }

  lemma ShortBegins(c: Ctx, d: Ctx, default: u64)
    requires c.table != default && c.table != d.table
    ensures var g := Filled(d, default, MANY);
            Enabled(g, Begins(0, c, Switching())) && Next(g, Begins(0, c, Switching())) == Refused(c, d, default)
  {
    hide FirstStream, AddCmds;
    NoRoom(d, default, multiset{d} + multiset{c}, [Install(c.table), Record(c.table)]);
  }

  lemma ShortSubmits(c: Ctx, d: Ctx, default: u64)
    ensures var g, s := Refused(c, d, default), Submits(0, 1, CommandSize(1), false);
            Enabled(g, s) && Next(g, s) == Lost(c, d, default)
  {
    hide Buffers, FirstStream;
    NoBuffers(c);
    assert Submission(4, [], [Buffer(c)]) == [Sop(4), Buffer(c), Eop(4), YieldPoint];
  }

  lemma ShortCommand(c: Ctx, d: Ctx, default: u64, rest: seq<Step>)
    requires c.table != default && c.table != d.table && Runs(Lost(c, d, default), rest)
    ensures var steps := [Begins(0, c, Switching())] + ([Submits(0, 1, CommandSize(1), false)] + rest);
            && Runs(Filled(d, default, MANY), steps)
            && After(Filled(d, default, MANY), steps) == After(Lost(c, d, default), rest)
  {
    hide Runs, After, Enabled, Next, Refused, Filled, Lost;
    ShortBegins(c, d, default);
    ShortSubmits(c, d, default);
    var submits := Submits(0, 1, CommandSize(1), false);
    OneStep(Refused(c, d, default), submits, Lost(c, d, default), rest);
    OneStep(Filled(d, default, MANY), Begins(0, c, Switching()), Refused(c, d, default), [submits] + rest);
  }

  lemma FirstTable(d: Ctx, default: u64, n: nat, ts: nat)
    ensures |FirstStream(d, n)| == n + 8 && Table(FirstStream(d, n) + [Sop(ts)], default) == d.table
  {
    var s := Submission(1, [], [Install(d.table), Record(d.table)]);
    SwitchStream([], 1, d.table, default);
    assert [] + s == s;
    UserStream(s, 2, d, 0, n, default);
    NoBuffers(d);
    TableSnoc(FirstStream(d, n), Sop(ts), default);
  }

  /** The run is possible, and at its end a buffer of context `c` is about to run under `table`. */
  predicate LeadsAstray(g: Gpu, steps: seq<Step>, c: Ctx, table: u64) {
    && Runs(g, steps)
    && var t := After(g, steps);
       AtBuffer(t) && t.rings[t.hw].stream[t.rings[t.hw].pos] == Buffer(c) && t.ttbr0 == table
  }

  /** Such a run from power-on, with no fault and no refusal of a user command: a long command of context `d`
      leaves the ring too full for the switch to `c`, but not for the command of `c`, whose buffer then runs
      under the page table of `d`. */
  lemma LostSwitch(c: Ctx, d: Ctx, default: u64)
    requires c.table != default && d.table != default && c.table != d.table
    ensures Init(OneRing(default)) && LeadsAstray(OneRing(default), Commands(c, d), c, d.table)
  {
    hide Runs, After, Execution, FirstStream, Table;
    var g, k := Lost(c, d, default), MANY + 9;
    FirstTable(d, default, MANY, 4);
    ExecutionRuns(g, k);
    ShortCommand(c, d, default, Execution(k));
    LongCommand(d, default, MANY,
                [Begins(0, c, Switching())] + ([Submits(0, 1, CommandSize(1), false)] + Execution(k)));
    assert BothStream(c, d)[0..k] == FirstStream(d, MANY) + [Sop(4)];
  }

  /** The ring of `d` when the command of `c` has been refused for a fault, before and after. */
  function Faulted(c: Ctx, d: Ctx, default: u64, active: Ctx, fault: bool): Gpu {
    var s := FirstStream(d, 1);
    var first := active == d;
    Filled(d, default, 1).(rings := [Ring(s, 0, 0, 127, 0, 0, default, Some(active), 2, 0, 0)], fault := fault,
                           taken := if first then multiset{d} else multiset{d} + multiset{c},
                           deferred := if first then multiset{} else multiset{d})
  }

  lemma FaultKeepsSwitch(c: Ctx, d: Ctx, default: u64)
    requires c != d
    ensures var g, t := Faulted(c, d, default, d, true), Faulted(c, d, default, c, true).(submitting := Some((0, c)));
            Enabled(g, Begins(0, c, Switching())) && Next(g, Begins(0, c, Switching())) == t
  {
    hide FirstStream, AddCmds, SwitchBody;
    var g := Faulted(c, d, default, d, true);
    AddNothing(g.(taken := g.taken + multiset{c}), SwitchBody(Some(d), c, default), SwitchSize(g, 0, c, Switching()));
  }

  lemma AddNothing(g: Gpu, body: seq<Cmd>, size: Size)
    requires Indexed(g) && |g.rings| > 0 && g.fault
    ensures AddCmds(g, 0, [], body, size, false) == g
  {
  }

  lemma FaultRefuses(c: Ctx, d: Ctx, default: u64)
    ensures var g, s := Faulted(c, d, default, c, true).(submitting := Some((0, c))),
                        Submits(0, 1, CommandSize(1), false);
            Enabled(g, s) && Next(g, s) == Faulted(c, d, default, c, true)
  {
    hide FirstStream, Advance, Submission, Buffers;
  }

  lemma SwitchForgotten(c: Ctx, d: Ctx, default: u64)
    ensures var g := Faulted(c, d, default, c, false);
            && Enabled(g, Begins(0, c, Switching()))
            && Next(g, Begins(0, c, Switching())) == g.(submitting := Some((0, c)))
  {
    hide FirstStream, AddCmds;
  }

  function Dropped(c: Ctx, d: Ctx, default: u64): Gpu {
    var s := FirstStream(d, 1) + [Sop(3), Buffer(c), Eop(3), YieldPoint];
    Faulted(c, d, default, c, false).(rings := [Ring(s, 0, 0, 186, 0, 0, default, Some(c), 3, 0, 0)], reg := |s|)
  }

  lemma ForgottenSubmits(c: Ctx, d: Ctx, default: u64)
    requires c != d
    ensures var g, s := Faulted(c, d, default, c, false).(submitting := Some((0, c))),
                        Submits(0, 1, CommandSize(1), false);
            Enabled(g, s) && Next(g, s) == Dropped(c, d, default)
  {
    hide Buffers, FirstStream;
    NoBuffers(c);
    assert Submission(3, [], [Buffer(c)]) == [Sop(3), Buffer(c), Eop(3), YieldPoint];
  }

  /** Two attempts at a command of `c`: during a fault, and after the fault has been dropped. */
  function Attempts(c: Ctx, rest: seq<Step>): seq<Step> {
    var submits := Submits(0, 1, CommandSize(1), false);
    [Step.Faults] + ([Begins(0, c, Switching())] + ([submits] + ([Step.Drops]
    + ([Begins(0, c, Switching())] + ([submits] + rest)))))
  }

  lemma AttemptsRun(c: Ctx, d: Ctx, default: u64, rest: seq<Step>)
    requires c != d && Runs(Dropped(c, d, default), rest)
    ensures Runs(Filled(d, default, 1), Attempts(c, rest))
    ensures After(Filled(d, default, 1), Attempts(c, rest)) == After(Dropped(c, d, default), rest)
  {
    hide Runs, After, Begin, Submit, Dropped, FirstStream;
    var begins, submits := Begins(0, c, Switching()), Submits(0, 1, CommandSize(1), false);
    var f0, f1 := Faulted(c, d, default, d, true), Faulted(c, d, default, c, true);
    var d0 := Faulted(c, d, default, c, false);
    FaultKeepsSwitch(c, d, default);
    FaultRefuses(c, d, default);
    SwitchForgotten(c, d, default);
    ForgottenSubmits(c, d, default);
    hide Enabled, Next;
    FaultsAndDrops(c, d, default);
    var r6 := [submits] + rest;
    OneStep(d0.(submitting := Some((0, c))), submits, Dropped(c, d, default), rest);
    OneStep(d0, begins, d0.(submitting := Some((0, c))), r6);
    OneStep(f1, Step.Drops, d0, [begins] + r6);
    OneStep(f1.(submitting := Some((0, c))), submits, f1, [Step.Drops] + ([begins] + r6));
    OneStep(f0, begins, f1.(submitting := Some((0, c))), [submits] + ([Step.Drops] + ([begins] + r6)));
    OneStep(Filled(d, default, 1), Step.Faults, f0, [begins] + ([submits] + ([Step.Drops] + ([begins] + r6))));
  }

  lemma FaultsAndDrops(c: Ctx, d: Ctx, default: u64)
    ensures var g := Filled(d, default, 1);
            Enabled(g, Step.Faults) && Next(g, Step.Faults) == Faulted(c, d, default, d, true)
    ensures var g := Faulted(c, d, default, c, true);
            Enabled(g, Step.Drops) && (c != d ==> Next(g, Step.Drops) == Faulted(c, d, default, c, false))
  {
    hide FirstStream;
  }

  function FaultedCommands(c: Ctx, d: Ctx): seq<Step> {
    [Begins(0, d, Switching())]
    + ([Submits(0, 1, CommandSize(1), false)] + Attempts(c, Execution(|FirstStream(d, 1)| + 1)))
  }

  /** The other such run: a fault refuses both submissions of a command of `c`, and is dropped without a
      restart; the next command of `c` finds its context active, switches no tables, and its buffer runs
      under the page table of `d`. */
  lemma DroppedFault(c: Ctx, d: Ctx, default: u64)
    requires c.table != default && d.table != default && c.table != d.table
    ensures Init(OneRing(default)) && LeadsAstray(OneRing(default), FaultedCommands(c, d), c, d.table)
  {
    hide Runs, After, Execution, FirstStream, Table, Attempts;
    var g, k := Dropped(c, d, default), |FirstStream(d, 1)| + 1;
    FirstTable(d, default, 1, 3);
    ExecutionRuns(g, k);
    AttemptsRun(c, d, default, Execution(k));
    LongCommand(d, default, 1, Attempts(c, Execution(k)));
    assert g.rings[0].stream[0..k] == FirstStream(d, 1) + [Sop(3)];
  }
}
