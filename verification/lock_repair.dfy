/** What becomes of a write offset that the register lacks: the next trigger repairs it, whatever the
    submitters, the other handlers, the timer and the GPU do meanwhile. */
module LockRepair {
  import opened Wrappers
  import opened LockRegions

  function Owner(m: Machine): Who { if Inside(m.irq) then Irq else Task }

  /** How far a repairing search has come. */
  predicate OnCourse(m: Machine, pc: Pc)
    requires Shaped(m)
  {
    match pc
    case Look(i) => i <= m.cur && m.reg < m.rings[m.cur].wptr
    case Refresh(again) => !again
    case Prepare(n) => n < m.cur
    case Announce(n) => n < m.cur
    case _ => false
  }

  /** A trigger that began while the register lagged, and has not ended. */
  predicate Repairing(m: Machine) {
    Steady(m) && m.state.Started? && OnCourse(m, At(m, Owner(m)))
  }

  /** The missing write offset is in the register, or a switch upwards has just been announced, or the GPU has
      been stopped, to come back with an empty ring. */
  predicate Mended(m: Machine) {
    && Shaped(m)
    && (|| Restarting(m)
        || (m.state.Started? && m.reg == Written(m, m.cur))
        || (m.state.Triggered? && m.next.Some? && m.next.value < m.cur))
  }

  /** The moves the trigger has left before it ends. */
  function Left(m: Machine): (k: nat)
    requires Shaped(m)
    ensures 0 < k
  {
    match At(m, Owner(m))
    case Look(i) => |m.rings| - i + 2
    case Prepare(_) => 2
    case _ => 1
  }

  /** The owner of the search is at `pc`, and nobody else is inside. */
  predicate Owns(m: Machine, who: Who, pc: Pc) {
    m.state.Started? && At(m, who) == pc && Inside(pc) && !Inside(if who.Irq? then m.task else m.irq)
  }

  lemma OwnsPut(m: Machine, who: Who, pc: Pc, next: Pc)
    requires Owns(m, who, pc) && Inside(next)
    ensures Owns(Put(m, who, next), who, next) && Owner(Put(m, who, next)) == who
  {
  }

  lemma OwnsAt(m: Machine, who: Who, pc: Pc)
    requires Owns(m, who, pc)
    ensures At(m, who) == pc && Owner(m) == who && m.state.Started?
  {
  }

  lemma OwnerLooks(m: Machine, who: Who, i: nat)
    requires Shaped(m) && Owns(m, who, Look(i)) && OnCourse(m, Look(i)) && m.rings[m.cur].rptr <= m.reg
    ensures var t := Move(m, who);
            && Shaped(t) && Owns(t, who, At(t, who)) && Owner(t) == who && OnCourse(t, At(t, who))
            && Left(t) < Left(m)
  {
    hide Owns, Owner;
    var next := if !m.rings[i].Empty() then (if i == m.cur then Refresh(false) else Prepare(i)) else Look(i + 1);
    OwnsAt(m, who, Look(i));
    OwnsPut(m, who, Look(i), next);
    OwnsAt(Put(m, who, next), who, next);
  }

  lemma OwnerPrepares(m: Machine, who: Who, n: nat)
    requires Shaped(m) && Owns(m, who, Prepare(n)) && OnCourse(m, Prepare(n))
    ensures var t := Move(m, who);
            && Shaped(t) && Owns(t, who, At(t, who)) && Owner(t) == who && OnCourse(t, At(t, who))
            && Left(t) < Left(m)
  {
  }

  lemma OwnerEnds(m: Machine, who: Who, pc: Pc)
    requires Shaped(m) && Owns(m, who, pc) && OnCourse(m, pc) && (pc.Refresh? || pc.Announce?)
    requires Unblocked(m, pc)
    ensures Mended(Move(m, who))
  {
  }

  lemma RepairOwner(m: Machine)
    requires Repairing(m)
    ensures Shaped(m) && Owns(m, Owner(m), At(m, Owner(m))) && m.rings[m.cur].rptr <= m.reg
    ensures Enabled(m, Moves(Owner(m))) <==> Unblocked(m, At(m, Owner(m)))
  {
    hide Undisturbed, Unblocked;
  }

  lemma RepairMoves(m: Machine)
    requires Repairing(m) && Enabled(m, Moves(Owner(m)))
    ensures var t := Move(m, Owner(m));
            Mended(t) || (Repairing(t) && Owner(t) == Owner(m) && Left(t) < Left(m))
  {
    RepairOwner(m);
    hide Steady, Move, Inside, Shaped, Enabled, Left, Mended, Owner, Owns, Unblocked;
    var who := Owner(m);
    OwnerIsTimely(m);
    MoveSteady(m, who);
    match At(m, who)
    case Look(i) =>
      OwnerLooks(m, who, i);
      OwnsAt(Move(m, who), who, At(Move(m, who), who));
    case Prepare(n) =>
      OwnerPrepares(m, who, n);
      OwnsAt(Move(m, who), who, At(Move(m, who), who));
    case pc => OwnerEnds(m, who, pc);
  }

  lemma OwnerIsTimely(m: Machine)
    requires Repairing(m)
    ensures Timely(m, Moves(Owner(m)))
  {
    hide Steady;
  }

  /** What the steps of the others leave of a search: only more work arrives, and only a submitter on the
      current ring writes the register, which mends it. */
  predicate Stays(m: Machine, t: Machine)
    requires Shaped(m)
  {
    && !Restarting(t) && t.state.Started? && t.cur == m.cur && |t.rings| == |m.rings| && Shaped(t)
    && Owner(t) == Owner(m) && At(t, Owner(t)) == At(m, Owner(m))
    && m.rings[m.cur].wptr <= t.rings[m.cur].wptr
    && (t.reg == m.reg || t.reg == Written(t, t.cur))
  }

  /** The other thread is outside the sections: the interrupt can only try, */
  lemma IrqStays(m: Machine)
    requires Steady(m) && Enabled(m, Moves(Irq)) && m.state.Started? && Owner(m) == Task
    ensures Stays(m, Move(m, Irq))
  {
    hide Offsets, Undisturbed;
    assert m.irq.Try?;
  }

  /** and the mutex holder try, or hand over a submission. */
  lemma TaskStays(m: Machine)
    requires Steady(m) && Enabled(m, Moves(Task)) && m.state.Started? && Owner(m) == Irq && Timely(m, Moves(Task))
    requires !m.task.Reset?
    ensures Stays(m, Move(m, Task))
  {
    TaskIsOutside(m);
    hide Steady, Stays, Owner, Timely, StillOn, Firing, Inside, PcOk;
    match m.task
    case Holds(r, w, Asks) => PlaceStays(m, Holds(r, w, Skipped));
    case Holds(r, w, Saw) => PlaceStays(m, Holds(r, w, if m.cur == r then Store else Skipped));
    case Holds(_, _, Store) => StoreStays(m);
    case Holds(_, _, _) => PublishStays(m);
    case _ => PlaceStays(m, Away);
  }

  lemma TaskIsOutside(m: Machine)
    requires Steady(m) && Enabled(m, Moves(Task)) && m.state.Started? && Owner(m) == Irq && Timely(m, Moves(Task))
    requires !m.task.Reset?
    ensures Shaped(m) && Inside(m.irq) && (m.task.Try? || m.task.Holds?) && (Storing(m.task) ==> m.cur == m.task.r)
    ensures PcOk(m, m.task)
  {
    hide Offsets, Undisturbed;
  }

  lemma PlaceStays(m: Machine, pc: Pc)
    requires Shaped(m) && m.state.Started? && Inside(m.irq) && PcOk(m, pc) && !Inside(pc) && pc != Reset(true)
    ensures Stays(m, m.(task := pc))
  {
  }

  lemma StoreStays(m: Machine)
    requires Shaped(m) && m.state.Started? && Inside(m.irq) && Storing(m.task) && m.cur == m.task.r
    ensures Stays(m, Move(m, Task))
  {
  }

  lemma PublishStays(m: Machine)
    requires Shaped(m) && m.state.Started? && Inside(m.irq) && m.task.Holds?
    requires m.task.stage.Stored? || m.task.stage.Skipped?
    ensures Stays(m, Move(m, Task))
  {
  }

  lemma OthersStay(m: Machine, s: Step)
    requires Steady(m) && m.state.Started? && Enabled(m, s) && s != Moves(Owner(m)) && Timely(m, s)
    ensures Shaped(m) && Shaped(Next(m, s)) && (Restarting(Next(m, s)) || Stays(m, Next(m, s)))
  {
    if s == Moves(Irq) {
      IrqStays(m);
    } else if s == Moves(Task) && m.task.Reset? {
      TaskStops(m);
    } else if s == Moves(Task) {
      TaskStays(m);
    } else {
      OthersStep(m, s);
    }
    hide Stays;
  }

  /** The fault handler makes the ring on the hardware current, and the GPU is stopped. */
  lemma TaskStops(m: Machine)
    requires Steady(m) && Enabled(m, Moves(Task)) && m.task.Reset?
    ensures Restarting(Move(m, Task)) && Shaped(Move(m, Task))
  {
    StopStep(m, Moves(Task));
  }

  lemma OthersStep(m: Machine, s: Step)
    requires Steady(m) && m.state.Started? && Enabled(m, s) && !s.Moves?
    ensures Shaped(Next(m, s)) && (Restarting(Next(m, s)) || Stays(m, Next(m, s)))
  {
    hide Undisturbed;
  }

  lemma RepairWaits(m: Machine, s: Step)
    requires Repairing(m) && Enabled(m, s) && s != Moves(Owner(m)) && Timely(m, s)
    ensures var t := Next(m, s); Mended(t) || (Repairing(t) && Owner(t) == Owner(m) && Left(t) == Left(m))
  {
    hide Steady, Next, Enabled, Timely, Owner, Sound, Restarting;
    SteadyIff(m);
    StepSoundIff(m, s);
    OthersStay(m, s);
    SteadyIff(Next(m, s));
  }

  /** Some state of the run, the first included, is mended. */
  predicate Mends(m: Machine, steps: seq<Step>)
    requires Runs(m, steps)
    decreases steps
  {
    Mended(m) || (steps != [] && Mends(Next(m, steps[0]), steps[1..]))
  }

  function MovesOf(who: Who, steps: seq<Step>): nat {
    if steps == [] then 0 else (if steps[0] == Moves(who) then 1 else 0) + MovesOf(who, steps[1..])
  }

  lemma {:induction false} RepairRuns(m: Machine, steps: seq<Step>)
    requires Repairing(m) && Runs(m, steps) && AllTimely(m, steps) && Left(m) <= MovesOf(Owner(m), steps)
    ensures Mends(m, steps)
    decreases steps
  {
    assert Shaped(m);
    hide Repairing, Mended, Next, Enabled, Owner, Timely;
    var t := Next(m, steps[0]);
    if steps[0] == Moves(Owner(m)) {
      RepairMoves(m);
      MoveIsNext(m);
    } else {
      RepairWaits(m, steps[0]);
    }
    if Mended(t) { NowMended(t, steps[1..]); } else { RepairRuns(t, steps[1..]); }
  }

  lemma MoveIsNext(m: Machine)
    requires Enabled(m, Moves(Owner(m)))
    ensures Next(m, Moves(Owner(m))) == Move(m, Owner(m))
  {
  }

  lemma NowMended(m: Machine, steps: seq<Step>)
    requires Mended(m) && Runs(m, steps)
    ensures Mends(m, steps)
  {
  }

  lemma RepairBegins(m: Machine, who: Who)
    requires Steady(m) && m.state.NoPreempt? && m.reg < m.rings[m.cur].wptr && At(m, who) == Try
    ensures var t := Move(m, who); Repairing(t) && Owner(t) == who && Left(t) == |m.rings| + 2
  {
    TrySteady(m, who);
    hide Offsets, Undisturbed;
  }

  /** In NONE the register can only lag, and then the current ring has work. */
  lemma LagMeansWork(m: Machine)
    requires Steady(m) && m.state.NoPreempt? && m.reg != Written(m, m.cur)
    ensures m.reg < m.rings[m.cur].wptr && !m.rings[m.cur].Empty()
  {
    hide Undisturbed;
  }

  /** Repair. The register can lag in NONE, but then the current ring has work, and the next trigger, after at
      most two moves more than there are rings, whatever the others do meanwhile, has ended with the missing
      offset in the register or a ring of strictly higher priority announced, or the GPU has been stopped. */
  lemma LagIsRepaired(m: Machine, steps: seq<Step>, who: Who, rest: seq<Step>)
    requires Init(m) && Runs(m, steps) && AllTimely(m, steps)
    requires var t := After(m, steps);
             && t.state.NoPreempt? && Shaped(t) && t.reg != Written(t, t.cur)
             && At(t, who) == Try && Enabled(t, Moves(who)) && Runs(Move(t, who), rest)
             && AllTimely(Move(t, who), rest) && |t.rings| + 2 <= MovesOf(who, rest)
    ensures var t := After(m, steps);
            && (!Restarting(t) ==> t.reg < t.rings[t.cur].wptr && !t.rings[t.cur].Empty())
            && Mends(Move(t, who), rest)
  {
    hide Sound, Steady, Move, Mends, Enabled, Restarting, Halted;
    InitSound(m);
    RunSound(m, steps);
    var t := After(m, steps);
    SteadyIff(t);
    if Restarting(t) {
      StoppedMends(t, who, rest);
    } else {
      LagMeansWork(t);
      RepairBegins(t, who);
      RepairRuns(Move(t, who), rest);
    }
  }

  /** Of a stopped GPU only the interrupt can trigger, and it stays stopped. */
  lemma StoppedMends(m: Machine, who: Who, rest: seq<Step>)
    requires Sound(m) && Restarting(m) && At(m, who) == Try && Enabled(m, Moves(who)) && Runs(Move(m, who), rest)
    ensures Mends(Move(m, who), rest)
  {
    hide Runs;
    IrqHalted(m);
    NowMended(Move(m, Irq), rest);
  }

  /** The locks cannot bring both threads to a stop: a thread waits only for a ring lock that the mutex
      holder has, and whoever has a ring lock can move. */
  lemma NobodyIsStuck(m: Machine, who: Who)
    requires Sound(m) && At(m, who) != Away
    ensures Enabled(m, Moves(who)) || (who.Irq? && m.task.Holds? && Enabled(m, Moves(Task)))
  {
    hide Offsets, Undisturbed;
  }
}
