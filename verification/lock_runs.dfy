/** Runs that show the gaps of the protocol: a write offset that the register lacks in NONE, an interrupt or a
    timeout between the two writes that start a switch, a submitter's write behind the hardware's departure,
    and a fresh start of the GPU while the interrupt is still in a handler. */
module LockRuns {
  import opened Wrappers
  import opened LockRegions
  import G = GpuModel

  lemma OneStep(m: Machine, s: Step, t: Machine, steps: seq<Step>)
    requires Enabled(m, s) && Next(m, s) == t && Runs(t, steps)
    ensures Runs(m, [s] + steps) && After(m, [s] + steps) == After(t, steps)
    ensures AllTimely(m, [s] + steps) <==> Timely(m, s) && AllTimely(t, steps)
  {
    assert ([s] + steps)[1..] == steps;
  }

  lemma LastStep(m: Machine, s: Step, t: Machine)
    requires Enabled(m, s) && Next(m, s) == t
    ensures Runs(m, [s]) && After(m, [s]) == t && (AllTimely(m, [s]) <==> Timely(m, s))
  {
    assert [s][1..] == [];
  }

  /** A completion interrupt that finds the switch register clear, up to the flip and up to state NONE. */
  lemma IrqFlips(m: Machine, t: Machine, rest: seq<Step>)
    requires Shaped(m) && m.irq == Status && !m.cntl && m.next.Some?
    requires t == m.(cur := m.next.value, next := None, irq := Refresh(true)) && Runs(t, rest)
    ensures var steps := [Moves(Irq)] + ([Moves(Irq)] + rest);
            Runs(m, steps) && After(m, steps) == After(t, rest)
  {
    hide Runs, After, AllTimely;
    OneStep(m.(irq := Flip), Moves(Irq), t, rest);
    OneStep(m, Moves(Irq), m.(irq := Flip), [Moves(Irq)] + rest);
  }

  lemma IrqFinishes(m: Machine, t: Machine, rest: seq<Step>)
    requires Shaped(m) && m.irq == Status && !m.cntl && m.next.Some? && Free(m, m.next.value)
    requires t == m.(cur := m.next.value, next := None, reg := m.rings[m.next.value].wptr,
                     source := m.next.value, state := G.NoPreempt, irq := Try)
    requires Runs(t, rest)
    ensures var steps := [Moves(Irq)] + ([Moves(Irq)] + ([Moves(Irq)] + ([Moves(Irq)] + rest)));
            Runs(m, steps) && After(m, steps) == After(t, rest)
  {
    hide Runs, After, AllTimely;
    var irq := Moves(Irq);
    var m3 := m.(cur := m.next.value, next := None, irq := Refresh(true));
    var m4 := m3.(reg := m.rings[m.next.value].wptr, source := m.next.value, irq := Settle(true));
    OneStep(m4, irq, t, rest);
    OneStep(m3, irq, m4, [irq] + rest);
    IrqFlips(m, m3, [irq] + ([irq] + rest));
  }

  /** What an untimely interrupt does, from any sound state in which the mutex holder is about to fire:
      the interrupt takes the switch for done, the write offset of the target lands in the register while
      the GPU is still on the other ring, and the switch is fired in state NONE. */
  lemma StaleInterrupt(m: Machine)
    requires Sound(m) && m.task == Fire && m.irq == Away && m.pending
    ensures var steps := [Step.Interrupts, Moves(Irq), Moves(Irq), Moves(Irq), Moves(Irq), Moves(Task)];
            && Runs(m, steps)
            && var t := After(m, steps);
               Shaped(t) && t.state.NoPreempt? && t.cntl && t.hw != t.cur && t.reg == t.rings[t.cur].wptr
  {
    hide Sound, Runs, After, AllTimely;
    FireMeans(m);
    var m1 := m.(pending := false, state := G.Pending, irq := Status);
    var m5 := m1.(cur := m.next.value, next := None, reg := m.rings[m.next.value].wptr,
                  source := m.next.value, state := G.NoPreempt, irq := Try);
    var irq := Moves(Irq);
    LastStep(m5, Moves(Task), m5.(cntl := true, task := Away));
    IrqFinishes(m1, m5, [Moves(Task)]);
    OneStep(m, Step.Interrupts, m1, [irq] + ([irq] + ([irq] + ([irq] + [Moves(Task)]))));
    assert [Step.Interrupts, irq, irq, irq, irq, Moves(Task)]
        == [Step.Interrupts] + ([irq] + ([irq] + ([irq] + ([irq] + [Moves(Task)]))));
  }

  lemma FireMeans(m: Machine)
    requires Sound(m) && m.task == Fire
    ensures Shaped(m) && m.state.Triggered? && m.next.Some? && m.next.value != m.cur && !m.cntl && m.hw == m.cur
  {
  }

  /** What a submitter's write does when the interrupt, in the meantime, has fired a switch and the hardware
      has followed it, from any sound state in which both writes are next: the offset of the submitter's
      ring lands on the ring that the GPU is on now. */
  lemma LateStore(m: Machine)
    requires Sound(m) && m.irq == Fire && Storing(m.task)
    ensures var steps := [Moves(Irq), Step.Switches, Moves(Task)];
            && Runs(m, steps)
            && var t := After(m, steps);
               Some(t.hw) == m.next && t.reg == m.task.w && t.source == m.task.r != t.hw && !Sound(t)
  {
    hide Sound, Runs, After, AllTimely;
    LateMeans(m);
    var m1 := m.(cntl := true, irq := Away);
    var rings := m.rings[m.hw := m.rings[m.hw].(record := m.reg)];
    var m2 := m1.(rings := rings, hw := m.restore, reg := rings[m.restore].record, source := m.restore,
                  cntl := false, pending := true);
    var m3 := m2.(reg := m.task.w, source := m.task.r, task := Holds(m.task.r, m.task.w, Stored));
    LastStep(m2, Moves(Task), m3);
    OneStep(m1, Step.Switches, m2, [Moves(Task)]);
    OneStep(m, Moves(Irq), m1, [Step.Switches] + [Moves(Task)]);
    assert [Moves(Irq), Step.Switches, Moves(Task)] == [Moves(Irq)] + ([Step.Switches] + [Moves(Task)]);
    SourceMeans(m3);
  }

  lemma LateMeans(m: Machine)
    requires Sound(m) && m.irq == Fire && Storing(m.task)
    ensures Shaped(m) && m.next == Some(m.restore) && m.restore != m.task.r
  {
    hide Offsets;
  }

  lemma SourceMeans(m: Machine)
    requires m.source != m.hw && !Restarting(m)
    ensures !Sound(m)
  {
  }

  /** What a fresh start of a stopped GPU does, from any sound state in which the interrupt is about to fire:
      the switch is fired on the GPU that has just come back, in state NONE. */
  lemma RestartTooSoon(m: Machine)
    requires Sound(m) && m.irq == Fire && Restarting(m)
    ensures var steps := [Moves(Task), Moves(Irq)];
            && Runs(m, steps)
            && var t := After(m, steps);
               t.state.NoPreempt? && t.cntl && t.hw == t.cur && t.task == t.irq == Away && !Sound(t)
  {
    hide Runs, After, AllTimely;
    var m1 := Restarted(m).(task := Away);
    var m2 := m1.(cntl := true, irq := Away);
    LastStep(m1, Moves(Irq), m2);
    OneStep(m, Moves(Task), m1, [Moves(Irq)]);
    assert [Moves(Task), Moves(Irq)] == [Moves(Task)] + [Moves(Irq)];
  }

  /** Some steps, none of them untimely, lead from one state to the other. */
  ghost predicate Reaches(m: Machine, t: Machine) {
    exists steps :: Runs(m, steps) && AllTimely(m, steps) && After(m, steps) == t
  }

  lemma ReachesItself(m: Machine)
    ensures Reaches(m, m)
  {
    assert Runs(m, []) && AllTimely(m, []) && After(m, []) == m;
  }

  lemma ReachesAfter(m: Machine, s: Step, u: Machine, t: Machine)
    requires Enabled(m, s) && Timely(m, s) && Next(m, s) == u && Reaches(u, t)
    ensures Reaches(m, t)
  {
    hide Enabled, Next, Timely;
    var steps :| Runs(u, steps) && AllTimely(u, steps) && After(u, steps) == t;
    OneStep(m, s, u, steps);
  }

  /** A submitter with the lock that has found that it must not write the register. */
  lemma ReachesAfterSkip(m: Machine, r: nat, w: nat, u: Machine, t: Machine)
    requires Shaped(m) && m.task == Away && r < |m.rings| && m.rings[r].wptr < w
    requires u == m.(rings := m.rings[r := m.rings[r].(wptr := w)]) && Reaches(u, t)
    ensures Reaches(m.(task := Holds(r, w, Skipped)), t)
  {
    hide Reaches;
    ReachesAfter(m.(task := Holds(r, w, Skipped)), Moves(Task), u, t);
  }

  /** One that finds the state other than NONE, or another ring current. */
  lemma ReachesAfterLock(m: Machine, r: nat, w: nat, u: Machine, t: Machine)
    requires Shaped(m) && m.task == Away && (m.state.NoPreempt? ==> m.cur != r)
    requires r < |m.rings| && m.rings[r].wptr < w
    requires u == m.(rings := m.rings[r := m.rings[r].(wptr := w)]) && Reaches(u, t)
    ensures Reaches(m.(task := Holds(r, w, Asks)), t)
  {
    hide Reaches;
    var skipped := m.(task := Holds(r, w, Skipped));
    ReachesAfterSkip(m, r, w, u, t);
    if m.state.NoPreempt? {
      var saw := m.(task := Holds(r, w, Saw));
      ReachesAfter(saw, Moves(Task), skipped, t);
      ReachesAfter(m.(task := Holds(r, w, Asks)), Moves(Task), saw, t);
    } else {
      ReachesAfter(m.(task := Holds(r, w, Asks)), Moves(Task), skipped, t);
    }
  }

  /** A whole such submission. */
  lemma ReachesAfterSubmit(m: Machine, r: nat, w: nat, u: Machine, t: Machine)
    requires Shaped(m) && m.task == Away && (m.state.NoPreempt? ==> m.cur != r)
    requires r < |m.rings| && m.rings[r].wptr < w
    requires u == m.(rings := m.rings[r := m.rings[r].(wptr := w)]) && Reaches(u, t)
    ensures Reaches(m, t)
  {
    hide Reaches;
    ReachesAfterLock(m, r, w, u, t);
    ReachesAfter(m, Step.Submits(r, w), m.(task := Holds(r, w, Asks)), t);
  }

  /** A machine with one ring that has `w` words, and nothing written to the register. */
  function OneRing(w: nat): Machine {
    Machine(G.NoPreempt, 0, None, [Slot(0, w, 0)], false, 0, 0, false, 0, 0, false, Away, Away)
  }

  /** The lag is real: a submission that falls between the interrupt's look at its empty ring and the return
      to NONE leaves its offset unwritten. */
  lemma LagHappens(w: nat)
    requires 0 < w
    ensures Init(OneRing(0)) && Reaches(OneRing(0), OneRing(w))
    ensures OneRing(w).reg != Written(OneRing(w), 0)
  {
    hide Reaches;
    var m0 := OneRing(0);
    var m1 := m0.(irq := Try);
    var m2 := m0.(state := G.Started, irq := Look(0));
    var m3 := m0.(state := G.Started, irq := Settle(false));
    var m4 := m3.(rings := [Slot(0, w, 0)]);
    ReachesItself(OneRing(w));
    ReachesAfter(m4, Moves(Irq), OneRing(w), OneRing(w));
    assert [Slot(0, 0, 0)][0 := Slot(0, w, 0)] == m4.rings;
    ReachesAfterSubmit(m3, 0, w, m4, OneRing(w));
    ReachesAfter(m2, Moves(Irq), m3, OneRing(w));
    ReachesAfter(m1, Moves(Irq), m2, OneRing(w));
    ReachesAfter(m0, Step.Retires, m1, OneRing(w));
  }

  /** A machine with two rings, as it is powered on, and states of two runs of it. */
  function PowerOn(): Machine {
    Machine(G.NoPreempt, 0, None, [Slot(0, 0, 0), Slot(0, 0, 0)], false, 0, 0, false, 0, 0, false, Away, Away)
  }
  function AtFound(): Machine {
    PowerOn().(rings := [Slot(0, 0, 0), Slot(0, 3, 0)], state := G.Started, task := Prepare(1))
  }
  function AtSwitched(): Machine {
    Machine(G.Triggered, 0, Some(1), [Slot(0, 0, 0), Slot(0, 3, 3)], false, 3, 1, false, 1, 1, true, Away, Away)
  }
  function AtSettled(): Machine {
    Machine(G.Complete, 1, None, [Slot(0, 2, 0), Slot(0, 3, 3)], false, 3, 1, false, 1, 1, true, Away, Settle(true))
  }
  function AtFire(): Machine {
    Machine(G.Triggered, 1, Some(0), [Slot(0, 2, 2), Slot(0, 3, 3)], false, 3, 1, false, 0, 1, true, Away, Fire)
  }
  function AtFinished(): Machine {
    Machine(G.NoPreempt, 1, None, [Slot(0, 2, 0), Slot(0, 3, 3)], false, 3, 1, false, 1, 1, false, Try, Away)
  }
  function AtClaimed(): Machine { AtFinished().(task := Holds(1, 5, Store)) }
  function AtHalted(): Machine {
    Machine(G.Triggered, 1, Some(0), [Slot(0, 2, 2), Slot(0, 3, 3)], false, 3, 1, false, 0, 1, false,
            Fire, Reset(true))
  }
  function AtLate(): Machine {
    Machine(G.Triggered, 1, Some(0), [Slot(0, 2, 2), Slot(0, 3, 3)], false, 3, 1, false, 0, 1, false,
            Fire, Holds(1, 5, Store))
  }

  /** Ring 1 gets work, and a pass finds it. */
  lemma Finds(t: Machine)
    requires Reaches(AtFound(), t)
    ensures Reaches(PowerOn(), t)
  {
    hide Reaches;
    var m0 := PowerOn();
    var m1 := m0.(rings := [Slot(0, 0, 0), Slot(0, 3, 0)]);
    var m2 := m1.(task := Try);
    var m3 := m2.(state := G.Started, task := Look(0));
    var m4 := m3.(task := Look(1));
    ReachesAfter(m4, Moves(Task), AtFound(), t);
    ReachesAfter(m3, Moves(Task), m4, t);
    ReachesAfter(m2, Moves(Task), m3, t);
    ReachesAfter(m1, Step.Schedules(true), m2, t);
    assert m0.rings[1 := Slot(0, 3, 0)] == m1.rings;
    ReachesAfterSubmit(m0, 1, 3, m1, t);
  }

  /** The switch to it goes through on the hardware. */
  lemma Departs(t: Machine)
    requires Reaches(AtSwitched(), t)
    ensures Reaches(AtFound(), t)
  {
    hide Reaches;
    var m5 := AtFound();
    var m6 := m5.(rings := [Slot(0, 0, 0), Slot(0, 3, 3)], task := Announce(1));
    var m7 := m6.(restore := 1, next := Some(1), state := G.Triggered, task := Fire);
    var m8 := m7.(cntl := true, task := Away);
    ReachesAfter(m8, Step.Switches, AtSwitched(), t);
    ReachesAfter(m7, Moves(Task), m8, t);
    ReachesAfter(m6, Moves(Task), m7, t);
    ReachesAfter(m5, Moves(Task), m6, t);
  }

  /** Its timeout comes before its interrupt, the worker finds the switch done, and ring 0 gets work. */
  lemma Completes(t: Machine)
    requires Reaches(AtSettled(), t)
    ensures Reaches(AtSwitched(), t)
  {
    hide Reaches;
    var m9 := AtSwitched();
    var m10 := m9.(state := G.Faulted);
    var m11 := m10.(task := Late);
    var m12 := m11.(state := G.Complete, task := Away);
    var m13 := m12.(rings := [Slot(0, 2, 0), Slot(0, 3, 3)]);
    var m14 := m13.(task := Check);
    var m15 := m14.(task := Flip);
    var m16 := m15.(cur := 1, next := None, task := Refresh(true));
    ReachesAfter(m16, Moves(Task), AtSettled(), t);
    ReachesAfter(m15, Moves(Task), m16, t);
    ReachesAfter(m14, Moves(Task), m15, t);
    ReachesAfter(m13, Step.Schedules(true), m14, t);
    assert m12.rings[0 := Slot(0, 2, 0)] == m13.rings;
    ReachesAfterSubmit(m12, 0, 2, m13, t);
    ReachesAfter(m11, Moves(Task), m12, t);
    ReachesAfter(m10, Step.Works(true), m11, t);
    ReachesAfter(m9, Step.TimesOut, m10, t);
  }

  /** The next trigger announces the way back while the first interrupt is still waiting. */
  lemma Returns()
    ensures Reaches(AtSettled(), AtFire())
  {
    hide Reaches;
    var m17 := AtSettled();
    var m18 := m17.(state := G.NoPreempt, task := Try);
    var m19 := m18.(state := G.Started, task := Look(0));
    var m20 := m19.(task := Prepare(0));
    var m21 := m20.(rings := [Slot(0, 2, 2), Slot(0, 3, 3)], task := Announce(0));
    ReachesItself(AtFire());
    ReachesAfter(m21, Moves(Task), AtFire(), AtFire());
    ReachesAfter(m20, Moves(Task), m21, AtFire());
    ReachesAfter(m19, Moves(Task), m20, AtFire());
    ReachesAfter(m18, Moves(Task), m19, AtFire());
    ReachesAfter(m17, Moves(Task), m18, AtFire());
  }

  /** The state in which an untimely interrupt does its harm is reached without any untimely step. */
  lemma StaleInterruptIsReachable()
    ensures Init(PowerOn()) && Reaches(PowerOn(), AtFire())
    ensures AtFire().task == Fire && AtFire().irq == Away && AtFire().pending
  {
    Returns();
    Completes(AtFire());
    Departs(AtFire());
    Finds(AtFire());
  }

  /** Ring 0 gets work, and the interrupt finishes the switch. */
  lemma Finished(t: Machine)
    requires Reaches(AtFinished(), t)
    ensures Reaches(AtSwitched(), t)
  {
    hide Reaches;
    var m9 := AtSwitched();
    var m10 := m9.(rings := [Slot(0, 2, 0), Slot(0, 3, 3)]);
    var m11 := m10.(pending := false, state := G.Pending, irq := Status);
    var m12 := m11.(irq := Flip);
    var m13 := m12.(cur := 1, next := None, irq := Refresh(true));
    var m14 := m13.(irq := Settle(true));
    ReachesAfter(m14, Moves(Irq), AtFinished(), t);
    ReachesAfter(m13, Moves(Irq), m14, t);
    ReachesAfter(m12, Moves(Irq), m13, t);
    ReachesAfter(m11, Moves(Irq), m12, t);
    ReachesAfter(m10, Step.Interrupts, m11, t);
    assert m9.rings[0 := Slot(0, 2, 0)] == m10.rings;
    ReachesAfterSubmit(m9, 0, 2, m10, t);
  }

  /** A submitter on ring 1 finds NONE and its own ring current. */
  lemma Claimed(t: Machine)
    requires Reaches(AtClaimed(), t)
    ensures Reaches(AtFinished(), t)
  {
    hide Reaches;
    var m := AtFinished();
    ReachesAfter(m.(task := Holds(1, 5, Saw)), Moves(Task), AtClaimed(), t);
    ReachesAfter(m.(task := Holds(1, 5, Asks)), Moves(Task), m.(task := Holds(1, 5, Saw)), t);
    ReachesAfter(m, Step.Submits(1, 5), m.(task := Holds(1, 5, Asks)), t);
  }

  /** The interrupt's own trigger then goes for ring 0, whose lock is free. */
  lemma Overtakes()
    ensures Reaches(AtClaimed(), AtLate())
  {
    hide Reaches;
    var m1 := AtClaimed();
    var m2 := m1.(state := G.Started, irq := Look(0));
    var m3 := m2.(irq := Prepare(0));
    var m4 := m3.(rings := [Slot(0, 2, 2), Slot(0, 3, 3)], irq := Announce(0));
    ReachesItself(AtLate());
    ReachesAfter(m4, Moves(Irq), AtLate(), AtLate());
    ReachesAfter(m3, Moves(Irq), m4, AtLate());
    ReachesAfter(m2, Moves(Irq), m3, AtLate());
    ReachesAfter(m1, Moves(Irq), m2, AtLate());
  }

  /** The state in which a submitter's write comes too late is reached without any untimely step. */
  lemma LateStoreIsReachable()
    ensures Init(PowerOn()) && Reaches(PowerOn(), AtLate())
    ensures AtLate().irq == Fire && Storing(AtLate().task)
  {
    Overtakes();
    Claimed(AtLate());
    Finished(AtLate());
    Departs(AtLate());
    Finds(AtLate());
  }

  /** The interrupt's own trigger goes for ring 0, and before it fires the mutex holder takes up a fault. */
  lemma Stops()
    ensures Reaches(AtFinished(), AtHalted())
  {
    hide Reaches;
    var m1 := AtFinished();
    var m2 := m1.(state := G.Started, irq := Look(0));
    var m3 := m2.(irq := Prepare(0));
    var m4 := m3.(rings := [Slot(0, 2, 2), Slot(0, 3, 3)], irq := Announce(0));
    var m5 := AtHalted().(task := Away);
    var m6 := m5.(task := Reset(false));
    ReachesItself(AtHalted());
    ReachesAfter(m6, Moves(Task), AtHalted(), AtHalted());
    ReachesAfter(m5, Step.Restarts(true), m6, AtHalted());
    ReachesAfter(m4, Moves(Irq), m5, AtHalted());
    ReachesAfter(m3, Moves(Irq), m4, AtHalted());
    ReachesAfter(m2, Moves(Irq), m3, AtHalted());
    ReachesAfter(m1, Moves(Irq), m2, AtHalted());
  }

  /** The state in which the GPU is started too soon is reached without any untimely step. */
  lemma RestartTooSoonIsReachable()
    ensures Init(PowerOn()) && Reaches(PowerOn(), AtHalted())
    ensures AtHalted().irq == Fire && Restarting(AtHalted())
  {
    Stops();
    Finished(AtHalted());
    Departs(AtHalted());
    Finds(AtHalted());
  }
}
