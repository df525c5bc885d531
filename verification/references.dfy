/** Context references that switching takes and gives back. */
module References {
  import opened Wrappers
  import opened GpuModel
  import opened PreemptSafety

  /** The references held are those of active contexts and of puts still to come. */
  predicate Balanced(g: Gpu) {
    Indexed(g) && g.taken == ActiveRefs(g.rings) + g.deferred
  }

  lemma SwapRefs(a: multiset<Ctx>, a': multiset<Ctx>, last: multiset<Ctx>, x: multiset<Ctx>, y: multiset<Ctx>)
    requires a' + x == a + y
    ensures a' + last + x == a + last + y
  {
    assert a' + last + x == (a' + x) + last;
    assert a + last + y == (a + y) + last;
  }

  lemma {:induction false} RefsUpdate(rings: seq<Ring>, i: nat, x: Ring)
    requires i < |rings|
    ensures ActiveRefs(rings[i := x]) + Ref(rings[i].active) == ActiveRefs(rings) + Ref(x.active)
    decreases |rings|
  {
    var n := |rings| - 1;
    hide Ref;
    if i == n {
      assert rings[i := x][..n] == rings[..n];
    } else {
      assert rings[i := x][..n] == rings[..n][i := x];
      RefsUpdate(rings[..n], i, x);
      SwapRefs(ActiveRefs(rings[..n]), ActiveRefs(rings[..n][i := x]), Ref(rings[n].active),
               Ref(rings[i].active), Ref(x.active));
    }
  }

  predicate SameActives(xs: seq<Ring>, ys: seq<Ring>) {
    |xs| == |ys| && forall i :: 0 <= i < |xs| ==> ys[i].active == xs[i].active
  }

  lemma {:induction false} RefsSame(xs: seq<Ring>, ys: seq<Ring>)
    requires SameActives(xs, ys)
    ensures ActiveRefs(xs) == ActiveRefs(ys)
    decreases |xs|
  {
    if xs != [] { RefsSame(xs[..|xs| - 1], ys[..|ys| - 1]); }
  }

  lemma {:induction false} RefsNone(rings: seq<Ring>)
    requires forall i :: 0 <= i < |rings| ==> rings[i].active == None
    ensures ActiveRefs(rings) == multiset{}
    decreases |rings|
  {
    if rings != [] { RefsNone(rings[..|rings| - 1]); }
  }

  /** The arithmetic of a switch: one reference for the new context, and the one of the old context is
      either given back or left to a put that comes later. */
  lemma Exchange(taken: multiset<Ctx>, refs: multiset<Ctx>, refs': multiset<Ctx>, deferred: multiset<Ctx>,
                 gained: multiset<Ctx>, lost: multiset<Ctx>)
    requires taken == refs + deferred && refs' + lost == refs + gained
    ensures taken + gained == refs' + (deferred + lost)
    ensures taken + gained - lost == refs' + deferred
  {
    assert taken + gained == (refs + gained) + deferred;
    assert refs' + (deferred + lost) == (refs' + lost) + deferred;
    assert (refs' + deferred) + lost - lost == refs' + deferred;
    assert (refs' + deferred) + lost == refs' + (deferred + lost);
  }

  lemma SwitchRefs(g: Gpu, r: nat, c: Ctx, env: Env)
    requires Balanced(g) && r < |g.rings|
    ensures Balanced(SwitchContext(g, r, c, env))
  {
    hide AddCmds, SwitchBody, SwitchSize, ActiveRefs;
    var active := g.rings[r].active;
    if active != Some(c) && SwitchResult(g, r, c, env) == Ok {
      var t := SwitchContext(g, r, c, env);
      SwitchContextShape(g, r, c, env);
      SwitchContextRing(g, r, c, env);
      RefsUpdate(g.rings, r, t.rings[r]);
      Exchange(g.taken, ActiveRefs(g.rings), ActiveRefs(t.rings), g.deferred, multiset{c}, Ref(active));
      SwitchTakes(g, r, c, env);
    }
  }

  lemma SwitchTakes(g: Gpu, r: nat, c: Ctx, env: Env)
    requires Indexed(g) && r < |g.rings| && g.rings[r].active != Some(c) && SwitchResult(g, r, c, env) == Ok
    ensures var t, active := SwitchContext(g, r, c, env), g.rings[r].active;
            && t.taken == (if env.eventOk then g.taken + multiset{c} else g.taken + multiset{c} - Ref(active))
            && t.deferred == (if env.eventOk then g.deferred + Ref(active) else g.deferred)
  {
    hide AddCmds, SwitchBody, SwitchSize;
    AddCmdsShape(g.(taken := g.taken + multiset{c}), r, [], SwitchBody(g.rings[r].active, c, g.default),
                 SwitchSize(g, r, c, env), false);
  }

  lemma ExtendedActives(g: Gpu, t: Gpu, r: nat)
    requires Extended(g, t, r) && t.rings[r].active == g.rings[r].active
    ensures SameActives(g.rings, t.rings)
  {
  }

  lemma AddRefs(g: Gpu, r: nat, front: seq<Cmd>, body: seq<Cmd>, size: Size, detached: bool)
    requires Balanced(g) && r < |g.rings|
    ensures Balanced(AddCmds(g, r, front, body, size, detached))
  {
    hide AddCmds, ActiveRefs, Submission, Advance;
    AddCmdsShape(g, r, front, body, size, detached);
    AddCmdsRing(g, r, front, body, size, detached);
    ExtendedActives(g, AddCmds(g, r, front, body, size, detached), r);
    RefsSame(g.rings, AddCmds(g, r, front, body, size, detached).rings);
  }

  /** The three steps that submit. */
  lemma LoadRefs(g: Gpu, s: Step)
    requires Balanced(g) && Enabled(g, s) && Loads(s)
    ensures Balanced(Next(g, s))
  {
    hide AddCmds, SwitchContext, ActiveRefs, Buffers;
    match s
    case Begins(r, c, env) => SwitchRefs(g, r, c, env);
    case Submits(front, n, size, detached) =>
      var (r, c) := g.submitting.value;
      AddRefs(g, r, Buffers(c, front), Buffers(c, n), size, detached);
    case Internal(r, size) => AddRefs(g, r, [], [], size, false);
  }

  lemma SlumberRefs(g: Gpu)
    requires Balanced(g)
    ensures Balanced(SetActiveNull(g)) && SetActiveNull(g).taken == g.deferred
  {
    RefsNone(SetActiveNull(g).rings);
  }

  lemma BlameActives(g: Gpu)
    requires Indexed(g)
    ensures SameActives(g.rings, Blame(g).rings) && Blame(g).taken == g.taken && Blame(g).deferred == g.deferred
  {
  }

  lemma ClearedActives(g: Gpu)
    ensures var t := ClearRings(Start(g));
            SameActives(g.rings, t.rings) && t.taken == g.taken && t.deferred == g.deferred
  {
  }

  lemma RestartRefs(g: Gpu, fault: bool)
    requires Balanced(g)
    ensures Balanced(Restart(g, fault)) && Restart(g, fault).taken == g.deferred
  {
    hide ActiveRefs, ClearRings, Start, Blame, SetActiveNull, SameActives;
    var g1 := if fault then Blame(g) else g;
    RefsSelf(g.rings);
    BlameActives(g);
    RefsSame(g.rings, g1.rings);
    SlumberRefs(g1);
    ClearedActives(SetActiveNull(g1));
    RefsSame(SetActiveNull(g1).rings, Restart(g, fault).rings);
  }

  lemma RefsSelf(rings: seq<Ring>)
    ensures SameActives(rings, rings)
  {
  }

  /** No other step touches references or active contexts. */
  predicate SameRefs(g: Gpu, t: Gpu) {
    SameActives(g.rings, t.rings) && t.taken == g.taken && t.deferred == g.deferred
  }

  lemma HandlerRefs(g: Gpu)
    requires Indexed(g)
    ensures SameRefs(g, Trigger(g)) && (g.next.Some? ==> SameRefs(g, Finish(g)) && SameRefs(g, Trigger(Finish(g))))
  {
    hide SameActives;
    TriggerActives(g);
    if g.next.Some? { TriggerActives(Finish(g)); RefsSelf(g.rings); }
  }

  lemma TriggerActives(g: Gpu)
    requires Indexed(g)
    ensures SameRefs(g, Trigger(g))
  {
  }

  lemma OtherRefs(g: Gpu, s: Step)
    requires Indexed(g) && Enabled(g, s) && !Loads(s) && !s.Slumbers? && !s.Restarts? && !s.Puts?
    ensures SameRefs(g, Next(g, s))
  {
    hide ExecCmd, Trigger, Finish;
    HandlerRefs(g);
    match s
    case Executes => ExecShape(g);
    case Triggers =>
    case Interrupts =>
    case Schedules(awake) => TriggerActives(if g.state == Complete then Done(g, awake) else g);
    case _ =>
  }

  lemma StepRefs(g: Gpu, s: Step)
    requires Balanced(g) && Enabled(g, s)
    ensures Balanced(Next(g, s))
  {
    hide Begin, Submit, AddCmds, SetActiveNull, Restart, ActiveRefs;
    match s
    case Begins(_, _, _) => LoadRefs(g, s);
    case Submits(_, _, _, _) => LoadRefs(g, s);
    case Internal(_, _) => LoadRefs(g, s);
    case Slumbers => SlumberRefs(g);
    case Restarts(fault) => RestartRefs(g, fault);
    case Puts(_) =>
    case _ =>
      OtherRefs(g, s);
      RefsSame(g.rings, Next(g, s).rings);
  }

  lemma {:induction false} RunRefs(g: Gpu, steps: seq<Step>)
    requires Balanced(g) && Runs(g, steps)
    ensures Balanced(After(g, steps))
    decreases steps
  {
    hide Balanced, Next, Enabled;
    if steps != [] {
      StepRefs(g, steps[0]);
      RunRefs(Next(g, steps[0]), steps[1..]);
    }
  }

  /** The rings on which a context is active. */
  function Where(rings: seq<Ring>, c: Ctx): set<nat> {
    set i | 0 <= i < |rings| && rings[i].active == Some(c)
  }

  lemma WhereLast(rings: seq<Ring>, c: Ctx)
    requires rings != []
    ensures var n := |rings| - 1;
            |Where(rings, c)| == |Where(rings[..n], c)| + if rings[n].active == Some(c) then 1 else 0
  {
    var n := |rings| - 1;
    assert Where(rings, c) == Where(rings[..n], c) + if rings[n].active == Some(c) then {n} else {};
  }

  lemma {:induction false} RefsCount(rings: seq<Ring>, c: Ctx)
    ensures ActiveRefs(rings)[c] == |Where(rings, c)|
    decreases |rings|
  {
    if rings == [] {
      assert Where(rings, c) == {};
    } else {
      hide Where;
      RefsCount(rings[..|rings| - 1], c);
      WhereLast(rings, c);
    }
  }

  /** In every reachable state the references that switching holds on a context are the rings on which it
      is active and the puts on it that have not come yet. */
  lemma ReferencesConserved(g: Gpu, steps: seq<Step>, c: Ctx)
    requires Init(g) && Runs(g, steps)
    ensures var t := After(g, steps); t.taken[c] == |Where(t.rings, c)| + t.deferred[c]
  {
    RefsNone(g.rings);
    RunRefs(g, steps);
    RefsCount(After(g, steps).rings, c);
  }
}
