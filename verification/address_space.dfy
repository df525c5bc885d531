/** Page tables across preemption: every buffer runs in its context's address space. */
module AddressSpace {
  import opened Wrappers
  import opened Pm4
  import opened GpuModel
  import opened PreemptSafety
  import R = RingSpace

  /** The table a stream leaves installed, on a ring that started with the default one. */
  function Table(s: seq<Cmd>, default: u64): u64 {
    if s == [] then default
    else
      match s[|s| - 1]
      case Install(t) => t
      case _ => Table(s[..|s| - 1], default)
  }

  /** The table a stream leaves in the ring's scratch. */
  function Noted(s: seq<Cmd>, default: u64): u64 {
    if s == [] then default
    else
      match s[|s| - 1]
      case Record(t) => t
      case _ => Noted(s[..|s| - 1], default)
  }

  /** Every table update is followed by its record, and every record follows its update. */
  predicate Bracketed(s: seq<Cmd>) {
    && (forall i :: 0 <= i < |s| && s[i].Install? ==> i + 1 < |s| && s[i + 1] == Record(s[i].table))
    && (forall i :: 0 <= i < |s| && s[i].Record? ==> 0 < i && s[i - 1] == Install(s[i].table))
  }

  /** Every buffer comes where its context's table is installed. */
  predicate Housed(s: seq<Cmd>, default: u64) {
    forall i :: 0 <= i < |s| && s[i].Buffer? && s[i].ctx.table != default ==>
      Table(s[..i], default) == s[i].ctx.table
  }

  /** The ring's last table is that of its active context, unless that is the default table. */
  predicate Follows(x: Ring, default: u64) {
    x.active.Some? && x.active.value.table != default ==> Table(x.stream, default) == x.active.value.table
  }

  predicate RingOk(x: Ring, default: u64) {
    && x.pos <= x.Wptr() && Bracketed(x.stream) && Housed(x.stream, default)
    && x.scratch == Noted(x.stream[..x.pos], default)
  }

  /** What holds of streams, scratch areas and the live table, whatever contexts are active. */
  predicate Core(g: Gpu) {
    && Inv(g)
    && (forall i :: 0 <= i < |g.rings| ==> RingOk(g.rings[i], g.default))
    && (forall i :: 0 <= i < |g.rings| && i != g.hw ==> SafePoint(g.rings[i]))
    && g.ttbr0 == Table(g.rings[g.hw].stream[..g.rings[g.hw].pos], g.default)
    && (g.cntl ==> g.smmu == g.rings[g.restore].scratch)
  }

  /** A user command is only ever submitted for the context that is active on its ring. */
  predicate Claimed(g: Gpu)
    requires Indexed(g)
  {
    g.submitting.Some? ==> g.rings[g.submitting.value.0].active == Some(g.submitting.value.1)
  }

  /** Every ring follows its active context. */
  predicate Followed(g: Gpu) {
    forall i :: 0 <= i < |g.rings| ==> Follows(g.rings[i], g.default)
  }

  /** While a fault is outstanding nothing can be submitted, so nothing is asked of the active contexts. */
  predicate AddrInv(g: Gpu) {
    Core(g) && Claimed(g) && (!g.fault ==> Followed(g))
  }

  /** Outside the brackets the scratch agrees with the table. */
  lemma {:induction false} NotedIsTable(s: seq<Cmd>, default: u64, k: nat)
    requires Bracketed(s) && k <= |s| && (k == 0 || !s[k - 1].Install?)
    ensures Noted(s[..k], default) == Table(s[..k], default)
    decreases k
  {
    if k > 0 {
      assert s[..k][..k - 1] == s[..k - 1];
      if s[k - 1].Record? {
        assert s[..k - 1][..k - 2] == s[..k - 2];
      } else {
        NotedIsTable(s, default, k - 1);
      }
    }
  }

  lemma TableSnoc(s: seq<Cmd>, c: Cmd, default: u64)
    ensures Table(s + [c], default) == if c.Install? then c.table else Table(s, default)
    ensures Noted(s + [c], default) == if c.Record? then c.table else Noted(s, default)
  {
    assert (s + [c])[..|s|] == s;
  }

  /** Neither an update nor a record, and a buffer only of the installed table. */
  predicate Plain(c: Cmd, table: u64, default: u64) {
    !c.Install? && !c.Record? && (c.Buffer? && c.ctx.table != default ==> c.ctx.table == table)
  }

  lemma SnocPlain(s: seq<Cmd>, c: Cmd, default: u64)
    requires Bracketed(s) && Housed(s, default) && Plain(c, Table(s, default), default)
    ensures Bracketed(s + [c]) && Housed(s + [c], default) && Table(s + [c], default) == Table(s, default)
  {
    TableSnoc(s, c, default);
    var t := s + [c];
    forall i | 0 <= i < |t| && t[i].Buffer? && t[i].ctx.table != default
      ensures Table(t[..i], default) == t[i].ctx.table
    {
      assert t[..i] == s[..i];
      if i == |s| { assert s[..i] == s; }
    }
  }

  lemma {:induction false} AppendPlain(s: seq<Cmd>, cs: seq<Cmd>, default: u64)
    requires Bracketed(s) && Housed(s, default) && forall c :: c in cs ==> Plain(c, Table(s, default), default)
    ensures Bracketed(s + cs) && Housed(s + cs, default) && Table(s + cs, default) == Table(s, default)
  {
    if cs == [] {
      assert s + cs == s;
    } else {
      var last, init := cs[|cs| - 1], cs[..|cs| - 1];
      AppendPlain(s, init, default);
      SnocPlain(s + init, last, default);
      assert s + init + [last] == s + cs;
    }
  }

  lemma AppendTable(s: seq<Cmd>, table: u64, default: u64)
    requires Bracketed(s) && Housed(s, default)
    ensures var t := s + [Install(table), Record(table)];
            Bracketed(t) && Housed(t, default) && Table(t, default) == table
  {
    var t := s + [Install(table), Record(table)];
    TableSnoc(s, Install(table), default);
    TableSnoc(s + [Install(table)], Record(table), default);
    assert t == s + [Install(table)] + [Record(table)];
    forall i | 0 <= i < |t| && t[i].Buffer? && t[i].ctx.table != default
      ensures Table(t[..i], default) == t[i].ctx.table
    {
      assert t[..i] == s[..i];
    }
  }

  lemma UserStream(s: seq<Cmd>, ts: nat, c: Ctx, front: nat, n: nat, default: u64)
    requires Bracketed(s) && Housed(s, default) && (c.table != default ==> Table(s, default) == c.table)
    ensures var t := s + Submission(ts, Buffers(c, front), Buffers(c, n));
            Bracketed(t) && Housed(t, default) && Table(t, default) == Table(s, default)
  {
    AppendPlain(s, Submission(ts, Buffers(c, front), Buffers(c, n)), default);
  }

  lemma EmptyStream(s: seq<Cmd>, ts: nat, default: u64)
    requires Bracketed(s) && Housed(s, default)
    ensures var t := s + Submission(ts, [], []);
            Bracketed(t) && Housed(t, default) && Table(t, default) == Table(s, default)
  {
    hide Table, Bracketed, Housed;
    AppendPlain(s, Submission(ts, [], []), default);
  }

  lemma SwitchStream(s: seq<Cmd>, ts: nat, table: u64, default: u64)
    requires Bracketed(s) && Housed(s, default)
    ensures var t := s + Submission(ts, [], [Install(table), Record(table)]);
            Bracketed(t) && Housed(t, default) && Table(t, default) == table
  {
    hide Table, Bracketed, Housed;
    var s1 := s + [Sop(ts)];
    AppendPlain(s, [Sop(ts)], default);
    AppendTable(s1, table, default);
    AppendPlain(s1 + [Install(table), Record(table)], [Eop(ts), YieldPoint], default);
    assert s + Submission(ts, [], [Install(table), Record(table)])
        == s1 + [Install(table), Record(table)] + [Eop(ts), YieldPoint];
  }

  lemma CoreExtended(g: Gpu, t: Gpu, r: nat)
    requires Core(g) && Inv(t) && Extended(g, t, r)
    requires Bracketed(t.rings[r].stream) && Housed(t.rings[r].stream, g.default)
    ensures Core(t)
  {
    var x, y := g.rings[r], t.rings[r];
    assert y.stream[..x.pos] == x.stream[..x.pos];
  }

  /** The switch either is not needed or writes no table, or the allocator has room for its submission. */
  predicate SwitchLands(g: Gpu, r: nat, c: Ctx)
    requires r < |g.rings|
  {
    var x := g.rings[r];
    var body := SwitchBody(x.active, c, g.default);
    x.active == Some(c) || body == [] || x.Slot(SwitchDwords(body)) != R.NoSpace
  }

  /** A submission that leaves its ring in order leaves everything in order. */
  lemma ExtendedAddr(g: Gpu, t: Gpu, r: nat)
    requires AddrInv(g) && Inv(t) && Extended(g, t, r) && Claimed(t)
    requires Bracketed(t.rings[r].stream) && Housed(t.rings[r].stream, g.default)
    requires !g.fault ==> Follows(t.rings[r], g.default)
    ensures AddrInv(t)
  {
    CoreExtended(g, t, r);
    hide Core, Follows, Claimed;
    assert t.rings == g.rings[r := t.rings[r]];
  }

  /** The switch on its own ring, when no fault is outstanding. */
  lemma SwitchRingAddr(x: Ring, c: Ctx, size: Size, ret: Ret, default: u64)
    requires Bracketed(x.stream) && Housed(x.stream, default) && Follows(x, default)
    requires ret == Ok || (ret == NoSpc && SwitchBody(x.active, c, default) == [])
    ensures var y := Added(x, [], SwitchBody(x.active, c, default), size, ret).(active := Some(c));
            Bracketed(y.stream) && Housed(y.stream, default) && Follows(y, default)
  {
    hide Table, Bracketed, Housed, Submission, Advance;
    SwitchStream(x.stream, x.timestamp + 1, c.table, default);
    EmptyStream(x.stream, x.timestamp + 1, default);
  }

  lemma SwitchAddr(g: Gpu, r: nat, c: Ctx, env: Env)
    requires AddrInv(g) && r < |g.rings| && g.submitting.None? && SwitchSize(g, r, c, env).Valid()
    requires g.fault || SwitchLands(g, r, c)
    ensures AddrInv(SwitchContext(g, r, c, env)) && SwitchContext(g, r, c, env).submitting.None?
    ensures SwitchResult(g, r, c, env) == Ok ==> SwitchContext(g, r, c, env).rings[r].active == Some(c)
  {
    assert Indexed(g);
    hide Table, Bracketed, Housed, Added, Inv, AddCmds, Submission, SwitchSize;
    if g.rings[r].active != Some(c) && SwitchResult(g, r, c, env) == Ok {
      hide SwitchContext, PutLater, Extended;
      var body, size := SwitchBody(g.rings[r].active, c, g.default), SwitchSize(g, r, c, env);
      SwitchContextInv(g, r, c, env);
      SwitchContextShape(g, r, c, env);
      SwitchContextRing(g, r, c, env);
      if g.fault {
        AddedNothing(g.rings[r], body, size);
      } else {
        LandedResult(g, r, c, env);
        SwitchRingAddr(g.rings[r], c, size, AddResult(g, r, size, false), g.default);
      }
      hide Follows, SwitchBody;
      ExtendedAddr(g, SwitchContext(g, r, c, env), r);
    }
  }

  lemma LandedResult(g: Gpu, r: nat, c: Ctx, env: Env)
    requires r < |g.rings| && !g.fault && g.rings[r].active != Some(c)
    ensures var ret := AddResult(g, r, SwitchSize(g, r, c, env), false);
            && ret in {Ok, NoSpc}
            && (SwitchLands(g, r, c) <==> ret == Ok || SwitchBody(g.rings[r].active, c, g.default) == [])
  {
  }

  lemma AddedNothing(x: Ring, body: seq<Cmd>, size: Size)
    ensures Added(x, [], body, size, Protocol) == x
  {
  }

  lemma SubmittingAddr(g: Gpu, submitting: Option<(nat, Ctx)>)
    requires AddrInv(g) && (submitting.Some? ==> submitting.value.0 < |g.rings|)
    requires submitting.Some? ==> g.rings[submitting.value.0].active == Some(submitting.value.1)
    ensures AddrInv(g.(submitting := submitting))
  {
    hide Inv, RingOk, Follows, SafePoint, Table;
    SubmittingDoesNotMatter(g, submitting);
  }

  lemma BeginAddr(g: Gpu, r: nat, c: Ctx, env: Env)
    requires AddrInv(g) && r < |g.rings| && g.submitting.None? && SwitchSize(g, r, c, env).Valid()
    requires SwitchResult(g, r, c, env) == Ok && !g.fault ==> SwitchLands(g, r, c)
    ensures AddrInv(Begin(g, r, c, env))
  {
    assert Indexed(g);
    hide AddrInv, SwitchContext, SwitchSize, SwitchLands;
    if SwitchResult(g, r, c, env) == Ok {
      SwitchAddr(g, r, c, env);
      SubmittingAddr(SwitchContext(g, r, c, env), Some((r, c)));
    } else {
      SwitchRefused(g, r, c, env);
    }
  }

  lemma UserRingAddr(x: Ring, c: Ctx, front: nat, n: nat, size: Size, ret: Ret, default: u64)
    requires Bracketed(x.stream) && Housed(x.stream, default) && Follows(x, default) && x.active == Some(c)
    ensures var y := Added(x, Buffers(c, front), Buffers(c, n), size, ret);
            Bracketed(y.stream) && Housed(y.stream, default) && Follows(y, default)
  {
    hide Table, Bracketed, Housed, Submission, Advance;
    UserStream(x.stream, x.timestamp + 1, c, front, n, default);
  }

  /** User commands go in only when no fault is outstanding, on a ring that follows its context. */
  lemma UserAddr(g: Gpu, r: nat, c: Ctx, front: nat, n: nat, size: Size, detached: bool)
    requires AddrInv(g) && r < |g.rings| && g.rings[r].active == Some(c) && size.Valid()
    ensures AddrInv(AddCmds(g, r, Buffers(c, front), Buffers(c, n), size, detached))
  {
    assert Indexed(g);
    hide Table, Bracketed, Housed, Inv, AddCmds, Submission, Extended, Buffers, Advance;
    AddCmdsInv(g, r, Buffers(c, front), Buffers(c, n), size, detached);
    AddCmdsRing(g, r, Buffers(c, front), Buffers(c, n), size, detached);
    if !g.fault {
      UserRingAddr(g.rings[r], c, front, n, size, AddResult(g, r, size, detached), g.default);
    }
    hide Follows;
    AddedAddr(g, r, Buffers(c, front), Buffers(c, n), size, detached);
  }

  /** An addition that leaves its own stream in order leaves everything in order. */
  lemma AddedAddr(g: Gpu, r: nat, front: seq<Cmd>, body: seq<Cmd>, size: Size, detached: bool)
    requires AddrInv(g) && r < |g.rings| && size.Valid() && Inv(AddCmds(g, r, front, body, size, detached))
    requires var y := AddCmds(g, r, front, body, size, detached).rings[r];
             && Bracketed(y.stream) && Housed(y.stream, g.default) && (!g.fault ==> Follows(y, g.default))
    ensures AddrInv(AddCmds(g, r, front, body, size, detached))
  {
    assert Indexed(g);
    hide Table, Bracketed, Housed, Inv, AddCmds, Submission, Follows, Core, Advance;
    AddCmdsShape(g, r, front, body, size, detached);
    AddCmdsRing(g, r, front, body, size, detached);
    ClaimKept(g, AddCmds(g, r, front, body, size, detached), r);
    ExtendedAddr(g, AddCmds(g, r, front, body, size, detached), r);
  }

  lemma ClaimKept(g: Gpu, t: Gpu, r: nat)
    requires Indexed(g) && Indexed(t) && Claimed(g) && Extended(g, t, r) && t.submitting == g.submitting
    requires t.rings[r].active == g.rings[r].active
    ensures Claimed(t)
  {
  }

  lemma SubmitAddr(g: Gpu, front: nat, n: nat, size: Size, detached: bool)
    requires AddrInv(g) && g.submitting.Some? && size.Valid()
    ensures AddrInv(Submit(g, front, n, size, detached))
  {
    assert Indexed(g) && Claimed(g);
    hide AddrInv, AddCmds;
    var (r, c) := g.submitting.value;
    UserAddr(g, r, c, front, n, size, detached);
    SubmittingAddr(AddCmds(g, r, Buffers(c, front), Buffers(c, n), size, detached), None);
  }

  lemma InternalAddr(g: Gpu, r: nat, size: Size)
    requires AddrInv(g) && r < |g.rings| && size.Valid()
    ensures AddrInv(AddCmds(g, r, [], [], size, false))
  {
    assert Indexed(g) && RingOk(g.rings[r], g.default);
    hide Table, Bracketed, Housed, Inv, AddCmds, Submission, Advance;
    AddCmdsInv(g, r, [], [], size, false);
    AddCmdsRing(g, r, [], [], size, false);
    EmptyStream(g.rings[r].stream, g.rings[r].timestamp + 1, g.default);
    hide Core;
    AddedAddr(g, r, [], [], size, false);
  }

  lemma TargetIsOther(g: Gpu)
    requires Inv(g)
    ensures Indexed(g) && (g.cntl ==> g.restore != g.hw)
  {
  }

  lemma TriggerAddr(g: Gpu)
    requires AddrInv(g)
    ensures AddrInv(Trigger(g))
  {
    hide Table, Noted, Bracketed, Housed, Inv;
    TriggerInv(g);
    TargetIsOther(g);
    TriggerArms(g);
  }

  lemma TriggerArms(g: Gpu)
    requires Inv(g)
    ensures Trigger(g).cntl && !g.cntl ==> Trigger(g).restore != g.hw
  {
  }

  lemma FinishAddr(g: Gpu)
    requires AddrInv(g) && g.state != NoPreempt && !g.cntl
    ensures AddrInv(Finish(g))
  {
    FinishInv(g);
  }

  lemma ExecRing(x: Ring, y: Ring, default: u64)
    requires RingOk(x, default) && x.pos < x.Wptr()
    requires y == x.(pos := x.pos + 1, scratch := y.scratch, consumed := y.consumed, retired := y.retired)
    requires var cmd := x.stream[x.pos]; y.scratch == if cmd.Record? then cmd.table else x.scratch
    ensures RingOk(y, default) && Follows(y, default) == Follows(x, default)
    ensures var cmd := x.stream[x.pos];
            Table(y.stream[..y.pos], default) ==
            if cmd.Install? then cmd.table else Table(x.stream[..x.pos], default)
  {
    assert x.stream[..x.pos + 1] == x.stream[..x.pos] + [x.stream[x.pos]];
    TableSnoc(x.stream[..x.pos], x.stream[x.pos], default);
  }

  lemma ExecAddr(g: Gpu)
    requires AddrInv(g) && Enabled(g, Executes)
    ensures AddrInv(ExecCmd(g))
  {
    hide Table, Inv, Follows, ExecCmd, RingOk, SafePoint;
    TargetIsOther(g);
    ExecInv(g);
    ExecShape(g);
    ExecRing(g.rings[g.hw], ExecCmd(g).rings[g.hw], g.default);
  }

  lemma FollowsStream(x: Ring, y: Ring, default: u64)
    requires x.stream == y.stream && x.active == y.active
    ensures Follows(x, default) == Follows(y, default)
  {
  }

  lemma HwSwitchAddr(g: Gpu)
    requires AddrInv(g) && Enabled(g, Switches)
    ensures AddrInv(HwSwitch(g))
  {
    HwSwitchInv(g);
    var x := g.rings[g.restore];
    NotedIsTable(x.stream, g.default, x.pos);
  }

  predicate Fresh(x: Ring, default: u64) {
    x.stream == [] && x.pos == 0 && x.scratch == default && x.active == None
  }

  lemma ClearedShape(g: Gpu)
    ensures var t := ClearRings(Start(SetActiveNull(g)));
            && t.default == g.default && t.submitting == g.submitting && |t.rings| == |g.rings|
            && forall i :: 0 <= i < |t.rings| ==> Fresh(t.rings[i], t.default)
  {
    hide ActiveRefs;
  }

  lemma RestartShape(g: Gpu, fault: bool)
    requires Indexed(g)
    ensures var t := Restart(g, fault);
            && t.ttbr0 == t.default && !t.cntl && t.submitting == g.submitting
            && forall i :: 0 <= i < |t.rings| ==> Fresh(t.rings[i], t.default)
  {
    hide ClearRings, Start, SetActiveNull, Fresh;
    ClearedShape(if fault then Blame(g) else g);
  }

  lemma FreshRing(x: Ring, default: u64)
    requires Fresh(x, default)
    ensures RingOk(x, default) && SafePoint(x) && Follows(x, default) && Table(x.stream[..x.pos], default) == default
  {
  }

  lemma RestartAddr(g: Gpu, fault: bool)
    requires AddrInv(g) && g.submitting.None?
    ensures AddrInv(Restart(g, fault))
  {
    RestartInv(g, fault);
    RestartShape(g, fault);
    hide Restart, Inv, RingOk, SafePoint, Follows, Table, Fresh;
    var t := Restart(g, fault);
    forall i | 0 <= i < |t.rings|
      ensures RingOk(t.rings[i], t.default) && SafePoint(t.rings[i]) && Follows(t.rings[i], t.default)
    {
      FreshRing(t.rings[i], t.default);
    }
    FreshRing(t.rings[t.hw], t.default);
  }

  lemma IdleRing(x: Ring, default: u64)
    requires RingOk(x, default)
    ensures var y := Idle(x);
            && RingOk(y, default) && Follows(y, default) && SafePoint(y) == SafePoint(x)
            && y.stream == x.stream && y.pos == x.pos && y.scratch == x.scratch
  {
  }

  lemma SlumberShape(g: Gpu)
    ensures var t := SetActiveNull(g);
            && t == g.(rings := t.rings, taken := t.taken) && |t.rings| == |g.rings|
            && forall i :: 0 <= i < |t.rings| ==> t.rings[i] == Idle(g.rings[i])
  {
    hide ActiveRefs, Idle;
  }

  lemma SlumberAddr(g: Gpu)
    requires AddrInv(g) && g.submitting.None?
    ensures AddrInv(SetActiveNull(g))
  {
    assert Indexed(g);
    hide Inv, RingOk, SafePoint, Follows, Table, SetActiveNull, Idle;
    SlumberInv(g);
    SlumberShape(g);
    var t := SetActiveNull(g);
    forall i | 0 <= i < |t.rings|
      ensures RingOk(t.rings[i], t.default) && Follows(t.rings[i], t.default)
      ensures SafePoint(t.rings[i]) == SafePoint(g.rings[i])
    {
      IdleRing(g.rings[i], g.default);
    }
    IdleRing(g.rings[g.hw], g.default);
    IdleRing(g.rings[g.restore], g.default);
  }

  lemma ReportAddr(g: Gpu, v: nat, d: nat)
    requires AddrInv(g) && Enabled(g, Reports(v, d))
    ensures AddrInv(Next(g, Reports(v, d)))
  {
    QuietInv(g, Reports(v, d));
    hide Table, Noted, Bracketed, Housed, Inv, Follows;
    FollowsStream(g.rings[g.hw], g.rings[g.hw].(rptr := v, read := d), g.default);
  }

  /** A fault may come up, and what is not about rings, tables and contexts may change. */
  lemma SameAddr(g: Gpu, t: Gpu)
    requires AddrInv(g) && Inv(t) && t.rings == g.rings && t.hw == g.hw && t.ttbr0 == g.ttbr0
    requires t.cntl == g.cntl && t.smmu == g.smmu && t.restore == g.restore && t.default == g.default
    requires t.submitting == g.submitting && (g.fault ==> t.fault)
    ensures AddrInv(t)
  {
    hide Inv, RingOk, SafePoint, Follows, Table;
  }

  lemma QuietAddr(g: Gpu, s: Step)
    requires AddrInv(g) && Enabled(g, s) && (s.TimesOut? || s.Works? || s.Puts? || s.Faults?)
    ensures AddrInv(Next(g, s))
  {
    assert Inv(g);
    hide Inv, Core, Claimed, Follows;
    QuietInv(g, s);
    SameAddr(g, Next(g, s));
  }

  lemma CallbackAddr(g: Gpu)
    requires AddrInv(g)
    ensures AddrInv(Callback(g))
  {
    CallbackInv(g);
    if g.state == Triggered && !g.cntl {
      hide Trigger, Finish, AddrInv;
      FinishAddr(g);
      TriggerAddr(Finish(g));
    } else {
      hide Table, Noted, Bracketed, Housed, Inv, Follows, RingOk;
    }
  }

  lemma ScheduleAddr(g: Gpu, awake: bool)
    requires AddrInv(g)
    ensures AddrInv(Schedule(g, awake))
  {
    if g.state == Complete && awake && !g.cntl {
      hide Trigger, Finish, AddrInv;
      FinishAddr(g);
      TriggerAddr(Finish(g));
    } else if g.state == Complete {
      ScheduleInv(g, awake);
      CompleteStays(g, awake);
    } else {
      TriggerAddr(g);
    }
  }

  /** If a user command begins, it can switch to its context's table; and a fault that is dropped has kept no
      context's table out. */
  predicate Lands(g: Gpu, s: Step)
    requires Enabled(g, s)
  {
    && (s.Drops? ==> Followed(g))
    && (s.Begins? && SwitchResult(g, s.ring, s.ctx, s.env) == Ok && !g.fault ==> SwitchLands(g, s.ring, s.ctx))
  }

  lemma DropAddr(g: Gpu)
    requires AddrInv(g) && Followed(g)
    ensures AddrInv(g.(fault := false))
  {
    hide Ordered, RingOk, SafePoint, Follows, Table;
  }

  lemma StepAddr(g: Gpu, s: Step)
    requires AddrInv(g) && Enabled(g, s) && Lands(g, s)
    ensures AddrInv(Next(g, s))
  {
    hide AddrInv, Followed, SwitchLands, Trigger, Callback, Schedule, Restart, ExecCmd, HwSwitch, Begin, Submit;
    hide AddCmds, SwitchSize, SwitchResult;
    match s
    case Begins(r, c, env) => BeginAddr(g, r, c, env);
    case Submits(front, n, size, detached) => SubmitAddr(g, front, n, size, detached);
    case Internal(r, size) => InternalAddr(g, r, size);
    case Triggers => TriggerAddr(g);
    case Interrupts => CallbackAddr(g);
    case Schedules(awake) => ScheduleAddr(g, awake);
    case Slumbers => SlumberAddr(g);
    case Restarts(fault) => RestartAddr(g, fault);
    case Executes => ExecAddr(g);
    case Reports(v, d) => ReportAddr(g, v, d);
    case Switches => HwSwitchAddr(g);
    case Drops => DropAddr(g);
    case _ => QuietAddr(g, s);
  }

  predicate AllLand(g: Gpu, steps: seq<Step>)
    requires Runs(g, steps)
    decreases steps
  {
    steps == [] || (Lands(g, steps[0]) && AllLand(Next(g, steps[0]), steps[1..]))
  }

  lemma {:induction false} RunAddr(g: Gpu, steps: seq<Step>)
    requires AddrInv(g) && Runs(g, steps) && AllLand(g, steps)
    ensures AddrInv(After(g, steps))
    decreases steps
  {
    hide AddrInv, Next, Enabled, Lands;
    if steps != [] {
      StepAddr(g, steps[0]);
      RunAddr(Next(g, steps[0]), steps[1..]);
    }
  }

  lemma InitAddr(g: Gpu)
    requires Init(g)
    ensures AddrInv(g)
  {
  }

  /** The next command of the GPU is a buffer of a context with a table of its own. */
  predicate AtBuffer(g: Gpu) {
    Enabled(g, Executes) &&
    var cmd := g.rings[g.hw].stream[g.rings[g.hw].pos];
    cmd.Buffer? && cmd.ctx.table != g.default
  }

  /** In every interleaving of the two submissions of user commands, internal submissions, faults and ring
      switches in which the allocator has room for the switches and no fault is dropped that kept one out, a
      buffer of a context with its own page table runs under that table, and the scratch of every ring holds
      the table its executed commands installed last. */
  lemma BuffersRunAtHome(g: Gpu, steps: seq<Step>)
    requires Init(g) && Runs(g, steps) && AllLand(g, steps)
    ensures var t := After(g, steps);
            && (AtBuffer(t) ==> t.ttbr0 == t.rings[t.hw].stream[t.rings[t.hw].pos].ctx.table)
            && (forall i :: 0 <= i < |t.rings| && SafePoint(t.rings[i]) ==>
                  t.rings[i].scratch == Table(t.rings[i].stream[..t.rings[i].pos], t.default))
  {
    InitAddr(g);
    RunAddr(g, steps);
    var t := After(g, steps);
    hide Table, Noted, Inv, Follows, After, Runs, AllLand, Bracketed, SafePoint;
    forall i | 0 <= i < |t.rings| && SafePoint(t.rings[i])
      ensures t.rings[i].scratch == Table(t.rings[i].stream[..t.rings[i].pos], t.default)
    {
      SafeScratch(t.rings[i], t.default);
    }
  }

  lemma SafeScratch(x: Ring, default: u64)
    requires RingOk(x, default) && SafePoint(x)
    ensures x.scratch == Table(x.stream[..x.pos], default)
  {
    NotedIsTable(x.stream, default, x.pos);
  }

}
