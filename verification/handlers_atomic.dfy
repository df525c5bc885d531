/** The two grains agree: a handler whose lock regions are not interleaved with anything does, on what
    they have in common, the single step that the GPU model takes for it. */
module HandlersAtomic {
  import opened Wrappers
  import G = GpuModel
  import opened LockRegions
  import R = LockRuns

  function Slots(rings: seq<G.Ring>): (s: seq<Slot>)
    ensures |s| == |rings|
  {
    if rings == [] then []
    else
      var x := rings[|rings| - 1];
      Slots(rings[..|rings| - 1]) + [Slot(x.rptr, x.Wptr(), x.record)]
  }

  lemma {:induction false} SlotsAt(rings: seq<G.Ring>, i: nat)
    requires i < |rings|
    ensures Slots(rings)[i] == Slot(rings[i].rptr, rings[i].Wptr(), rings[i].record)
    decreases |rings|
  {
    if i < |rings| - 1 { SlotsAt(rings[..|rings| - 1], i); }
  }

  lemma {:induction false} SlotsUpdate(rings: seq<G.Ring>, i: nat, x: G.Ring)
    requires i < |rings|
    ensures Slots(rings[i := x]) == Slots(rings)[i := Slot(x.rptr, x.Wptr(), x.record)]
    decreases |rings|
  {
    var n := |rings| - 1;
    if i < n {
      assert rings[i := x][..n] == rings[..n][i := x];
      SlotsUpdate(rings[..n], i, x);
    } else {
      assert rings[i := x][..n] == rings[..n];
    }
  }

  /** No submitter has a lock, so nobody waits. */
  predicate Open(m: Machine) { Shaped(m) && !m.task.Holds? }

  /** The same state, as far as both models have it. */
  predicate Matches(m: Machine, g: G.Gpu) {
    && Open(m) && G.Indexed(g)
    && m.state == g.state && m.cur == g.cur && m.next == g.next && m.rings == Slots(g.rings)
    && m.fault == g.fault && m.reg == g.reg && m.cntl == g.cntl && m.restore == g.restore && m.hw == g.hw
  }

  /** So many moves of one thread and nothing else. */
  function Alone(who: Who, n: nat): seq<Step> {
    if n == 0 then [] else [Moves(who)] + Alone(who, n - 1)
  }

  /** The thread, moving alone, gets from one state to the other. */
  ghost predicate Gets(m: Machine, who: Who, t: Machine) {
    exists n :: Runs(m, Alone(who, n)) && After(m, Alone(who, n)) == t
  }

  lemma GetsItself(m: Machine, who: Who)
    ensures Gets(m, who, m)
  {
    assert Alone(who, 0) == [] && Runs(m, Alone(who, 0)) && After(m, Alone(who, 0)) == m;
  }

  lemma GetsNext(m: Machine, who: Who, t: Machine)
    requires Enabled(m, Moves(who)) && Gets(Move(m, who), who, t)
    ensures Gets(m, who, t)
  {
    hide Move;
    var n: nat :| Runs(Move(m, who), Alone(who, n)) && After(Move(m, who), Alone(who, n)) == t;
    R.OneStep(m, Moves(who), Move(m, who), Alone(who, n));
    assert Alone(who, n + 1) == [Moves(who)] + Alone(who, n);
  }

  /** The thread's next move leads to `t`. */
  predicate Steps(m: Machine, who: Who, t: Machine) {
    Enabled(m, Moves(who)) && Move(m, who) == t && Open(t)
  }

  lemma GetsStep(m: Machine, who: Who, u: Machine, t: Machine)
    requires Steps(m, who, u) && Gets(u, who, t)
    ensures Gets(m, who, t)
  {
    hide Move, Enabled, Gets;
    GetsNext(m, who, t);
  }

  lemma LookSteps(m: Machine, who: Who, i: nat)
    requires Open(m) && At(m, who) == Look(i)
    ensures Steps(m, who, Put(m, who, if !m.rings[i].Empty() then (if i == m.cur then Refresh(false) else Prepare(i))
                                      else if i + 1 < |m.rings| then Look(i + 1) else Settle(false)))
  {
  }

  lemma RefreshSteps(m: Machine, who: Who, again: bool)
    requires Open(m) && At(m, who) == Refresh(again)
    ensures Steps(m, who, Put(m.(reg := m.rings[m.cur].wptr, source := m.cur), who, Settle(again)))
  {
  }

  lemma SettleSteps(m: Machine, who: Who, again: bool)
    requires Open(m) && At(m, who) == Settle(again)
    ensures Steps(m, who, Put(m.(state := G.NoPreempt), who, if again then Try else Away))
  {
  }

  lemma PrepareSteps(m: Machine, who: Who, n: nat)
    requires Open(m) && At(m, who) == Prepare(n)
    ensures Steps(m, who, Put(m.(rings := m.rings[n := m.rings[n].(record := m.rings[n].wptr)]), who, Announce(n)))
  {
  }

  lemma AnnounceSteps(m: Machine, who: Who, n: nat)
    requires Open(m) && At(m, who) == Announce(n)
    ensures Steps(m, who, Put(m.(restore := n, next := Some(n), state := G.Triggered), who, Fire))
  {
  }

  lemma FireSteps(m: Machine, who: Who)
    requires Open(m) && At(m, who) == Fire
    ensures Steps(m, who, Put(m.(cntl := true), who, Away))
  {
  }

  lemma FlipSteps(m: Machine, who: Who)
    requires Open(m) && At(m, who) == Flip && m.next.Some?
    ensures Steps(m, who, Put(m.(cur := m.next.value, next := None), who, Refresh(true)))
  {
  }

  lemma StepsShape(m: Machine, who: Who, t: Machine)
    requires Steps(m, who, t)
    ensures Open(t)
  {
  }

  function Armed(m: Machine, who: Who, i: nat): Machine
    requires i < |m.rings|
  {
    Put(m.(rings := m.rings[i := m.rings[i].(record := m.rings[i].wptr)],
           restore := i, next := Some(i), state := G.Triggered, cntl := true), who, Away)
  }

  /** The moves of the three ways a search can end. */
  lemma ArmMoves(m: Machine, who: Who, i: nat)
    requires Open(m) && At(m, who) == Look(i) && i != m.cur && !m.rings[i].Empty()
    ensures Gets(m, who, Armed(m, who, i))
  {
    hide Gets, Steps, Open, PcOk;
    assert i < |m.rings| by { LookInRange(m, who, i); }
    var m1 := Put(m, who, Prepare(i));
    var m2 := Put(m1.(rings := m.rings[i := m.rings[i].(record := m.rings[i].wptr)]), who, Announce(i));
    var m3 := Put(m2.(restore := i, next := Some(i), state := G.Triggered), who, Fire);
    LookSteps(m, who, i);
    StepsShape(m, who, m1);
    PrepareSteps(m1, who, i);
    StepsShape(m1, who, m2);
    AnnounceSteps(m2, who, i);
    StepsShape(m2, who, m3);
    FireSteps(m3, who);
    GetsItself(Armed(m, who, i), who);
    GetsStep(m3, who, Armed(m, who, i), Armed(m, who, i));
    GetsStep(m2, who, m3, Armed(m, who, i));
    GetsStep(m1, who, m2, Armed(m, who, i));
    GetsStep(m, who, m1, Armed(m, who, i));
  }

  lemma LookInRange(m: Machine, who: Who, i: nat)
    requires Open(m) && At(m, who) == Look(i)
    ensures i < |m.rings| && m.cur < |m.rings|
  {
  }

  lemma RefreshMoves(m: Machine, who: Who)
    requires Open(m) && At(m, who) == Look(m.cur) && !m.rings[m.cur].Empty()
    ensures Gets(m, who, Put(m.(reg := m.rings[m.cur].wptr, source := m.cur, state := G.NoPreempt), who, Away))
  {
    hide Gets, Steps, Open, PcOk;
    LookInRange(m, who, m.cur);
    var m1 := Put(m, who, Refresh(false));
    var m2 := Put(m1.(reg := m.rings[m.cur].wptr, source := m.cur), who, Settle(false));
    var t := Put(m2.(state := G.NoPreempt), who, Away);
    LookSteps(m, who, m.cur);
    StepsShape(m, who, m1);
    RefreshSteps(m1, who, false);
    StepsShape(m1, who, m2);
    SettleSteps(m2, who, false);
    GetsItself(t, who);
    GetsStep(m2, who, t, t);
    GetsStep(m1, who, m2, t);
    GetsStep(m, who, m1, t);
  }

  lemma NothingMoves(m: Machine, who: Who)
    requires Open(m) && At(m, who) == Look(|m.rings| - 1) && m.rings[|m.rings| - 1].Empty()
    ensures Gets(m, who, Put(m.(state := G.NoPreempt), who, Away))
  {
    hide Gets, Steps, Open, PcOk;
    var m1 := Put(m, who, Settle(false));
    var t := Put(m.(state := G.NoPreempt), who, Away);
    LookSteps(m, who, |m.rings| - 1);
    StepsShape(m, who, m1);
    SettleSteps(m1, who, false);
    GetsItself(t, who);
    GetsStep(m1, who, t, t);
    GetsStep(m, who, m1, t);
  }

  lemma ArmedMatches(m: Machine, g: G.Gpu, who: Who, i: nat)
    requires Matches(m.(state := G.NoPreempt), g) && PcOk(m, Away) && i < |g.rings|
    ensures Matches(Armed(m, who, i), G.Arm(g, i))
  {
    hide Slots;
    SlotsAt(g.rings, i);
    SlotsUpdate(g.rings, i, g.rings[i].(record := g.rings[i].Wptr()));
  }

  /** A trigger that has got as far as ring `i`. */
  lemma {:induction false} SearchGets(m: Machine, g: G.Gpu, who: Who, i: nat) returns (t: Machine)
    requires m.state == G.Started && g.state == G.NoPreempt && Matches(m.(state := G.NoPreempt), g)
    requires At(m, who) == Look(i) && i < |m.rings| && G.NextRing(g.rings, 0) == G.NextRing(g.rings, i)
    ensures Gets(m, who, t) && Matches(t, G.Trigger(g)) && t == Put(t, who, Away)
    decreases |m.rings| - i
  {
    hide Gets, Steps, Slots, G.NextRing, G.Trigger, Matches, Put, At;
    MatchesRing(m.(state := G.NoPreempt), g, i);
    NextFrom(g.rings, i);
    if g.rings[i].Empty() && i + 1 < |m.rings| {
      SearchNext(m, g, who, i);
      t := SearchGets(Put(m, who, Look(i + 1)), g, who, i + 1);
      GetsStep(m, who, Put(m, who, Look(i + 1)), t);
    } else {
      t := SearchEnds(m, g, who, i);
    }
  }

  lemma MatchesRing(m: Machine, g: G.Gpu, i: nat)
    requires Matches(m, g) && (i < |m.rings| || i < |g.rings|)
    ensures Open(m) && |m.rings| == |g.rings|
    ensures m.rings[i] == Slot(g.rings[i].rptr, g.rings[i].Wptr(), g.rings[i].record)
  {
    SlotsAt(g.rings, i);
  }

  lemma SearchNext(m: Machine, g: G.Gpu, who: Who, i: nat)
    requires m.state == G.Started && Matches(m.(state := G.NoPreempt), g)
    requires At(m, who) == Look(i) && i + 1 < |m.rings| && m.rings[i].Empty()
    ensures var u := Put(m, who, Look(i + 1));
            && u.state == G.Started && Matches(u.(state := G.NoPreempt), g) && At(u, who) == Look(i + 1)
            && |u.rings| == |m.rings| && Steps(m, who, u)
  {
    hide Slots, Steps;
    LookSteps(m, who, i);
  }

  lemma SearchEnds(m: Machine, g: G.Gpu, who: Who, i: nat) returns (t: Machine)
    requires m.state == G.Started && g.state == G.NoPreempt && Matches(m.(state := G.NoPreempt), g)
    requires At(m, who) == Look(i) && i < |m.rings| && G.NextRing(g.rings, 0) == G.NextRing(g.rings, i)
    requires m.rings[i] == Slot(g.rings[i].rptr, g.rings[i].Wptr(), g.rings[i].record)
    requires g.rings[i].Empty() ==> i == |m.rings| - 1
    ensures Gets(m, who, t) && Matches(t, G.Trigger(g)) && t == Put(t, who, Away)
  {
    assert Open(m);
    hide Gets, Slots, G.Arm, G.NextRing, G.Trigger, Matches, Open;
    NextFrom(g.rings, i);
    TriggerIs(g);
    if g.rings[i].Empty() {
      NothingMoves(m, who);
      t := Put(m.(state := G.NoPreempt), who, Away);
      SettledMatches(m, g, who);
    } else if i == m.cur {
      RefreshMoves(m, who);
      SettledMatches(m, g, who);
      t := Put(m.(reg := m.rings[m.cur].wptr, source := m.cur, state := G.NoPreempt), who, Away);
    } else {
      ArmMoves(m, who, i);
      MatchesCur(m.(state := G.NoPreempt), g);
      ArmedMatches(m, g, who, i);
      t := Armed(m, who, i);
    }
  }

  lemma MatchesCur(m: Machine, g: G.Gpu)
    requires Matches(m, g)
    ensures m.cur == g.cur && m.state == g.state && |m.rings| == |g.rings| && G.Indexed(g)
  {
  }

  /** Back in NONE, with or without the current ring's offset written. */
  lemma SettledMatches(m: Machine, g: G.Gpu, who: Who)
    requires g.state == G.NoPreempt && Matches(m.(state := G.NoPreempt), g)
    ensures m.cur == g.cur < |m.rings|
    ensures Matches(Put(m.(state := G.NoPreempt), who, Away), g)
    ensures Matches(Put(m.(reg := m.rings[m.cur].wptr, source := m.cur, state := G.NoPreempt), who, Away),
                    G.UpdateWptr(g))
  {
    hide Slots;
    SlotsAt(g.rings, g.cur);
  }

  lemma TriggerIs(g: G.Gpu)
    requires G.Indexed(g) && g.state == G.NoPreempt
    ensures G.Trigger(g) == match G.NextRing(g.rings, 0)
                            case None => g
                            case Some(n) => if n == g.cur then G.UpdateWptr(g) else G.Arm(g, n)
  {
  }

  lemma NextFrom(rings: seq<G.Ring>, i: nat)
    requires i < |rings|
    ensures G.NextRing(rings, i) == if rings[i].Empty() then G.NextRing(rings, i + 1) else Some(i)
    ensures i + 1 == |rings| ==> G.NextRing(rings, i + 1) == None
  {
  }

  /** A trigger by itself is the trigger of the GPU model. */
  lemma TriggerIsAtomic(m: Machine, g: G.Gpu, who: Who) returns (t: Machine)
    requires Matches(m, g) && At(m, who) == Try
    ensures Gets(m, who, t) && Matches(t, G.Trigger(g)) && t == Put(t, who, Away)
  {
    hide Gets;
    if g.state == G.NoPreempt {
      t := SearchGets(Put(m.(state := G.Started), who, Look(0)), g, who, 0);
    } else {
      t := Put(m, who, Away);
      GetsItself(t, who);
    }
    GetsNext(m, who, t);
  }

  function Flipped(m: Machine, who: Who): Machine
    requires m.next.Some? && m.next.value < |m.rings|
  {
    Put(m.(cur := m.next.value, next := None, reg := m.rings[m.next.value].wptr, source := m.next.value,
          state := G.NoPreempt), who, Try)
  }

  lemma FlipMoves(m: Machine, who: Who, t: Machine)
    requires Open(m) && At(m, who) == Flip && m.next.Some? && Gets(Flipped(m, who), who, t)
    ensures Gets(m, who, t)
  {
    assert m.next.value < |m.rings|;
    hide Gets, Steps, Open, PcOk;
    var m1 := Put(m.(cur := m.next.value, next := None), who, Refresh(true));
    var m2 := Put(m1.(reg := m1.rings[m1.cur].wptr, source := m1.cur), who, Settle(true));
    FlipSteps(m, who);
    StepsShape(m, who, m1);
    RefreshSteps(m1, who, true);
    StepsShape(m1, who, m2);
    SettleSteps(m2, who, true);
    GetsStep(m2, who, Flipped(m, who), t);
    GetsStep(m1, who, m2, t);
    GetsStep(m, who, m1, t);
  }

  lemma FlippedMatches(m: Machine, g: G.Gpu, who: Who)
    requires Matches(m.(state := g.state), g) && m.next.Some?
    ensures Matches(Flipped(m, who), G.Finish(g))
  {
    hide Slots;
    SlotsAt(g.rings, g.next.value);
  }

  /** From the flip on: the finish of the GPU model, and then its trigger. */
  lemma FinishGets(m: Machine, g: G.Gpu, who: Who) returns (t: Machine)
    requires Matches(m.(state := g.state), g) && At(m, who) == Flip && g.next.Some?
    ensures Gets(m, who, t) && Matches(t, G.Trigger(G.Finish(g))) && t == Put(t, who, Away)
  {
    assert Open(m);
    hide Gets, Slots, G.Trigger, G.Finish, Matches;
    MatchesNext(m.(state := g.state), g);
    FlippedMatches(m, g, who);
    t := TriggerIsAtomic(Flipped(m, who), G.Finish(g), who);
    FlipMoves(m, who, t);
  }

  lemma MatchesNext(m: Machine, g: G.Gpu)
    requires Matches(m, g)
    ensures m.next == g.next && G.Indexed(g)
  {
  }

  /** A completion interrupt by itself is that of the GPU model. */
  lemma CallbackIsAtomic(m: Machine, g: G.Gpu) returns (t: Machine)
    requires Matches(m, g) && m.pending && m.irq == Away && (g.state == G.Triggered ==> g.next.Some?)
    ensures Gets(Next(m, Step.Interrupts), Irq, t) && Matches(t, G.Callback(g)) && t.irq == Away
  {
    hide Gets, Slots, G.Trigger, G.Finish;
    var m1 := Next(m, Step.Interrupts);
    if g.state != G.Triggered {
      t := m1;
      GetsItself(t, Irq);
    } else if g.cntl {
      t := m1.(state := G.Complete, irq := Away);
      GetsItself(t, Irq);
      GetsNext(m1.(irq := Late), Irq, t);
      GetsNext(m1, Irq, t);
    } else {
      t := FinishGets(m1.(irq := Flip), g, Irq);
      GetsNext(m1, Irq, t);
    }
  }

  /** The dispatcher's pass by itself is that of the GPU model. */
  lemma ScheduleIsAtomic(m: Machine, g: G.Gpu, awake: bool) returns (t: Machine)
    requires Matches(m, g) && m.task == Away && (g.state == G.Complete ==> g.next.Some?)
    ensures Gets(Next(m, Step.Schedules(awake)), Task, t) && Matches(t, G.Schedule(g, awake)) && t.task == Away
  {
    hide Gets, Slots, G.Trigger, G.Finish;
    var m1 := Next(m, Step.Schedules(awake));
    if g.state != G.Complete || !awake {
      t := TriggerIsAtomic(m1, g, Task);
    } else if g.cntl {
      t := TriggerIsAtomic(m1.(fault := true, task := Try), g.(fault := true), Task);
      GetsNext(m1, Task, t);
    } else {
      t := FinishGets(m1.(task := Flip), g, Task);
      GetsNext(m1, Task, t);
    }
  }

  /** So is the worker's, */
  lemma WorkerIsAtomic(m: Machine, g: G.Gpu, awake: bool) returns (t: Machine)
    requires Matches(m, g) && m.task == Away
    ensures Gets(Next(m, Step.Works(awake)), Task, t) && Matches(t, G.Worker(g, awake)) && t.task == Away
  {
    hide Gets, Slots;
    var m1 := Next(m, Step.Works(awake));
    if m1.task == Late {
      t := m1.(state := G.Complete, task := Away);
      GetsItself(t, Task);
      GetsNext(m1, Task, t);
    } else {
      t := m1;
      GetsItself(t, Task);
    }
  }

  function Given(m: Machine, r: nat, w: nat): Machine
    requires r < |m.rings|
  {
    var t := m.(rings := m.rings[r := m.rings[r].(wptr := w)]);
    if m.state == G.NoPreempt && m.cur == r then t.(reg := w, source := r) else t
  }

  /** A submitter with the lock that is told to write the register, and one that is not. */
  lemma StoreMoves(m: Machine, r: nat, w: nat)
    requires Open(m) && r < |m.rings| && m.rings[r].wptr < w && m.state == G.NoPreempt && m.cur == r
    ensures Gets(m.(task := Holds(r, w, Saw)), Task, Given(m, r, w).(task := Away))
  {
    hide Gets;
    var t := Given(m, r, w).(task := Away);
    GetsItself(t, Task);
    GetsNext(m.(reg := w, source := r, task := Holds(r, w, Stored)), Task, t);
    GetsNext(m.(task := Holds(r, w, Store)), Task, t);
    GetsNext(m.(task := Holds(r, w, Saw)), Task, t);
  }

  lemma SkipMoves(m: Machine, r: nat, w: nat)
    requires Open(m) && r < |m.rings| && m.rings[r].wptr < w && !(m.state == G.NoPreempt && m.cur == r)
    ensures var t := Given(m, r, w).(task := Away);
            && Gets(m.(task := Holds(r, w, Skipped)), Task, t)
            && (m.state == G.NoPreempt ==> Gets(m.(task := Holds(r, w, Saw)), Task, t))
  {
    hide Gets;
    var t := Given(m, r, w).(task := Away);
    GetsItself(t, Task);
    GetsNext(m.(task := Holds(r, w, Skipped)), Task, t);
    if m.state == G.NoPreempt { GetsNext(m.(task := Holds(r, w, Saw)), Task, t); }
  }

  lemma SubmitMoves(m: Machine, r: nat, w: nat)
    requires Open(m) && m.task == Away && r < |m.rings| && m.rings[r].wptr < w
    ensures Enabled(m, Step.Submits(r, w)) && Gets(Next(m, Step.Submits(r, w)), Task, Given(m, r, w))
  {
    hide Gets, Given;
    GivenAway(m, r, w);
    if m.state == G.NoPreempt && m.cur == r { StoreMoves(m, r, w); } else { SkipMoves(m, r, w); }
    GetsNext(m.(task := Holds(r, w, Asks)), Task, Given(m, r, w));
  }

  lemma GivenAway(m: Machine, r: nat, w: nat)
    requires r < |m.rings| && m.task == Away
    ensures Given(m, r, w).(task := Away) == Given(m, r, w)
  {
  }

  /** and the end of a submission, which leaves the ring `x`, is its hand-over. */
  lemma SubmitIsHandOver(m: Machine, g: G.Gpu, r: nat, x: G.Ring) returns (t: Machine)
    requires Matches(m, g) && m.task == Away && r < |g.rings| && g.rings[r].Wptr() < x.Wptr()
    requires x.rptr == g.rings[r].rptr && x.record == g.rings[r].record
    ensures Enabled(m, Step.Submits(r, x.Wptr())) && Gets(Next(m, Step.Submits(r, x.Wptr())), Task, t)
    ensures Matches(t, G.HandOver(G.SetRing(g, r, x), r)) && t.task == Away
  {
    hide Gets, Next, Enabled, Matches, Given;
    MatchesRing(m, g, r);
    SubmitMoves(m, r, x.Wptr());
    GivenAway(m, r, x.Wptr());
    GivenMatches(m, g, r, x);
    t := Given(m, r, x.Wptr());
  }

  lemma LongerMatches(m: Machine, g: G.Gpu, r: nat, x: G.Ring)
    requires Matches(m, g) && r < |g.rings| && x.rptr == g.rings[r].rptr && x.record == g.rings[r].record
    ensures r < |m.rings| && Matches(m.(rings := m.rings[r := m.rings[r].(wptr := x.Wptr())]), G.SetRing(g, r, x))
  {
    hide Slots;
    SlotsAt(g.rings, r);
    SlotsUpdate(g.rings, r, x);
  }

  lemma RefreshMatches(m: Machine, g: G.Gpu)
    requires Matches(m, g)
    ensures Matches(m.(reg := g.rings[g.cur].Wptr(), source := m.cur), G.UpdateWptr(g))
  {
    hide Slots;
  }

  lemma GivenMatches(m: Machine, g: G.Gpu, r: nat, x: G.Ring)
    requires Matches(m, g) && r < |g.rings| && x.rptr == g.rings[r].rptr && x.record == g.rings[r].record
    ensures r < |m.rings| && Matches(Given(m, r, x.Wptr()), G.HandOver(G.SetRing(g, r, x), r))
    ensures Given(m, r, x.Wptr()).task == m.task
  {
    hide Matches, G.UpdateWptr, Open;
    MatchesCur(m, g);
    LongerMatches(m, g, r, x);
    RefreshMatches(m.(rings := m.rings[r := m.rings[r].(wptr := x.Wptr())]), G.SetRing(g, r, x));
  }

  /** A recovery, or a power-up, that finds the interrupt outside its handlers is the restart of the GPU
      model. */
  lemma RestartIsAtomic(m: Machine, g: G.Gpu, fault: bool) returns (t: Machine)
    requires Matches(m, g) && m.task == m.irq == Away
    ensures Enabled(m, Step.Restarts(fault)) && Gets(Next(m, Step.Restarts(fault)), Task, t)
    ensures Matches(t, G.Restart(g, fault)) && t.task == Away
  {
    hide Gets, Slots, G.Restart;
    var m1 := if fault then m.(cur := m.hw, task := Reset(true)) else m.(task := Reset(true));
    t := Restarted(m1).(task := Away);
    RestartedMatches(m, g, fault);
    GetsItself(t, Task);
    GetsNext(m1, Task, t);
    if fault { GetsNext(m.(task := Reset(false)), Task, t); }
  }

  lemma RestartedMatches(m: Machine, g: G.Gpu, fault: bool)
    requires Matches(m, g) && m.task == Away
    ensures Matches(Restarted(if fault then m.(cur := m.hw) else m), G.Restart(g, fault))
  {
    hide Slots;
    var t := G.Restart(g, fault);
    SlotsOfEmpty(t.rings);
  }

  lemma {:induction false} SlotsOfEmpty(rings: seq<G.Ring>)
    requires forall i :: 0 <= i < |rings| ==> rings[i].rptr == rings[i].Wptr() == rings[i].record == 0
    ensures Slots(rings) == Cleared(|rings|)
    decreases |rings|
  {
    hide Cleared;
    forall i | 0 <= i < |rings|
      ensures Slots(rings)[i] == Slot(0, 0, 0)
    {
      SlotsAt(rings, i);
    }
  }

  /** Timeouts, reports of the read pointer and hardware switches are single steps in both models. */
  lemma TimeoutMatches(m: Machine, g: G.Gpu)
    requires Matches(m, g)
    ensures Matches(Next(m, Step.TimesOut), G.Timer(g))
  {
    hide Slots;
  }

  lemma ReportMatches(m: Machine, g: G.Gpu, v: nat, d: nat)
    requires Matches(m, g) && G.Enabled(g, G.Step.Reports(v, d)) && g.rings[g.hw].pos <= g.reg
    ensures Enabled(m, Step.Reports(v))
    ensures Matches(Next(m, Step.Reports(v)), G.Next(g, G.Step.Reports(v, d)))
  {
    hide Slots;
    SlotsAt(g.rings, g.hw);
    SlotsUpdate(g.rings, g.hw, g.rings[g.hw].(rptr := v, read := d));
  }

  lemma SwitchMatches(m: Machine, g: G.Gpu)
    requires Matches(m, g) && Enabled(m, Step.Switches)
    ensures Matches(Next(m, Step.Switches), G.HwSwitch(g))
  {
    hide Slots;
    var saved := g.rings[g.hw := g.rings[g.hw].(record := g.reg)];
    SlotsAt(g.rings, g.hw);
    SlotsUpdate(g.rings, g.hw, g.rings[g.hw].(record := g.reg));
    SlotsAt(saved, g.restore);
  }
}
