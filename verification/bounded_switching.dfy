/** How often the GPU can be switched while nothing new is submitted. */
module BoundedSwitching {
  import opened Wrappers
  import opened GpuModel
  import opened PreemptSafety

  /** No submission and no restart. */
  predicate Quiet(steps: seq<Step>) {
    forall s :: s in steps ==> !Loads(s) && !s.Restarts?
  }

  /** The rings that switches are started towards, in order. */
  function Targets(g: Gpu, steps: seq<Step>): seq<nat>
    requires Inv(g) && Runs(g, steps)
    decreases steps
  {
    if steps == [] then []
    else
      var t := Next(g, steps[0]);
      StepInv(g, steps[0]);
      SwitchDiscipline(g, steps[0]);
      (if Raises(g, t) then [t.next.value] else []) + Targets(t, steps[1..])
  }

  predicate Increasing(xs: seq<nat>) {
    forall i, j :: 0 <= i < j < |xs| ==> xs[i] < xs[j]
  }

  predicate EmptyBelow(g: Gpu, n: nat) {
    n < |g.rings| && forall k :: 0 <= k < n ==> g.rings[k].Empty()
  }

  /** The last target was `n`: it is current or about to be, and every ring above it is empty. */
  predicate Aimed(g: Gpu, n: nat) {
    && Inv(g) && EmptyBelow(g, n)
    && (if g.state == NoPreempt then g.cur == n else g.next == Some(n))
  }

  lemma TriggerAim(g: Gpu, n: nat)
    requires Aimed(g, n)
    ensures var t := Trigger(g);
            if Raises(g, t) then n < t.next.value && Aimed(t, t.next.value) else Aimed(t, n)
  {
    TriggerInv(g);
  }

  lemma FinishAim(g: Gpu, n: nat)
    requires Aimed(g, n) && g.state != NoPreempt && !g.cntl
    ensures Aimed(Finish(g), n) && !Finish(g).cntl
  {
    FinishInv(g);
  }

  lemma ExecAim(g: Gpu, n: nat)
    requires Aimed(g, n) && Enabled(g, Executes)
    ensures Aimed(ExecCmd(g), n) && ExecCmd(g).cntl == g.cntl
  {
    hide ExecCmd;
    ExecInv(g);
    ExecShape(g);
  }

  lemma HwSwitchAim(g: Gpu, n: nat)
    requires Aimed(g, n) && Enabled(g, Switches)
    ensures Aimed(HwSwitch(g), n) && !HwSwitch(g).cntl
  {
    HwSwitchInv(g);
  }

  lemma QuietAim(g: Gpu, s: Step, n: nat)
    requires Aimed(g, n) && Enabled(g, s) && Calm(s)
    ensures Aimed(Next(g, s), n) && Next(g, s).cntl == g.cntl
  {
    QuietInv(g, s);
  }

  lemma CallbackAim(g: Gpu, n: nat)
    requires Aimed(g, n)
    ensures var t := Callback(g);
            if Raises(g, t) then t.next.Some? && n < t.next.value && Aimed(t, t.next.value) else Aimed(t, n)
  {
    if g.state == Triggered && !g.cntl {
      hide Trigger, Finish;
      FinishAim(g, n);
      TriggerAim(Finish(g), n);
    }
  }

  lemma ScheduleAim(g: Gpu, awake: bool, n: nat)
    requires Aimed(g, n)
    ensures var t := Schedule(g, awake);
            if Raises(g, t) then t.next.Some? && n < t.next.value && Aimed(t, t.next.value) else Aimed(t, n)
  {
    if g.state == Complete && awake && !g.cntl {
      hide Trigger, Finish;
      FinishAim(g, n);
      TriggerAim(Finish(g), n);
    } else if g.state == Complete {
      CompleteStays(g, awake);
    } else {
      TriggerAim(g, n);
    }
  }

  lemma StepAim(g: Gpu, s: Step, n: nat)
    requires Aimed(g, n) && Enabled(g, s) && !Loads(s) && !s.Restarts?
    ensures var t := Next(g, s);
            if Raises(g, t) then t.next.Some? && n < t.next.value && Aimed(t, t.next.value) else Aimed(t, n)
  {
    assert Inv(g);
    hide ExecCmd, HwSwitch, Trigger, Callback, Schedule, Aimed, Inv;
    match s
    case Triggers =>
      TriggerAim(g, n);
      TriggerTargets(g);
    case Interrupts => CallbackAim(g, n);
    case Schedules(awake) => ScheduleAim(g, awake, n);
    case Executes => ExecAim(g, n);
    case Switches => HwSwitchAim(g, n);
    case _ => QuietAim(g, s, n);
  }

  lemma TriggerTargets(g: Gpu)
    requires Inv(g)
    ensures Raises(g, Trigger(g)) ==> Trigger(g).next.Some?
  {
  }

  predicate Above(xs: seq<nat>, n: nat) {
    Increasing(xs) && forall x :: x in xs ==> n < x
  }

  lemma AboveCons(n: nat, x: nat, xs: seq<nat>)
    requires Above(xs, x)
    ensures Increasing([x] + xs) && (n < x ==> Above([x] + xs, n))
  {
    assert forall i :: 0 <= i < |xs| ==> xs[i] in xs;
  }

  lemma {:induction false} TargetsAbove(g: Gpu, steps: seq<Step>, n: nat)
    requires Aimed(g, n) && Inv(g) && n < |g.rings| && Runs(g, steps) && Quiet(steps)
    ensures Above(Targets(g, steps), n) && |Targets(g, steps)| < |g.rings| - n
    decreases steps
  {
    hide Next, Enabled, Inv, Above;
    if steps == [] {
      assert Above([], n) by { NothingAbove(n); }
    } else {
      var t := Next(g, steps[0]);
      assert steps[0] in steps && forall s :: s in steps[1..] ==> s in steps;
      StepAim(g, steps[0], n);
      StepInv(g, steps[0]);
      if Raises(g, t) {
        TargetsAbove(t, steps[1..], t.next.value);
        AboveCons(n, t.next.value, Targets(t, steps[1..]));
      } else {
        TargetsAbove(t, steps[1..], n);
        assert [] + Targets(t, steps[1..]) == Targets(t, steps[1..]);
      }
    }
  }

  lemma RaisedAims(t: Gpu)
    requires Inv(t) && RightTarget(t)
    ensures t.next.value < |t.rings| && Aimed(t, t.next.value)
  {
  }

  lemma NothingAbove(n: nat)
    ensures Above([], n)
  {
  }

  /** From any reachable state, as long as nothing is submitted and the GPU is not restarted, switches
      go to rings of strictly falling priority, so there are at most as many as there are rings. */
  lemma {:induction false} SwitchingIsBounded(g: Gpu, steps: seq<Step>)
    requires Inv(g) && Runs(g, steps) && Quiet(steps)
    ensures Increasing(Targets(g, steps)) && |Targets(g, steps)| <= |g.rings|
    decreases steps
  {
    hide Next, Enabled, Inv;
    if steps != [] {
      var s, t := steps[0], Next(g, steps[0]);
      assert forall s :: s in steps[1..] ==> s in steps;
      StepInv(g, s);
      SwitchDiscipline(g, s);
      if Raises(g, t) {
        RaisedAims(t);
        TargetsAbove(t, steps[1..], t.next.value);
        AboveCons(0, t.next.value, Targets(t, steps[1..]));
      } else {
        SwitchingIsBounded(t, steps[1..]);
        assert [] + Targets(t, steps[1..]) == Targets(t, steps[1..]);
      }
    }
  }

  /** The GPU is taken off a ring that still has work only for a ring of higher priority. */
  lemma OnlyUpwardsFromWork(g: Gpu, s: Step)
    requires Inv(g) && Enabled(g, s) && Raises(g, Next(g, s))
    ensures var t := Next(g, s);
            t.next.Some? && (!t.rings[t.cur].Empty() ==> t.next.value < t.cur)
  {
    SwitchDiscipline(g, s);
  }
}
