/** Preemption at the grain of lock regions, reads and writes of the state word, and register writes. Two
    threads can be inside the driver: the interrupt, and the holder of the device mutex, which is a
    submitter, the dispatcher or the worker. Between any two of their steps the other may move, and so
    may the timer and the GPU. */
module LockRegions {
  import opened Wrappers
  import opened GpuModel

  /** What matters of a ring here, in running totals. */
  datatype Slot = Slot(rptr: nat, wptr: nat, record: nat) {
    predicate Empty() { rptr == wptr }
  }

  datatype Who = Irq | Task

  /** Where a thread is: the next lock region, read or write it will carry out. */
  datatype Pc =
    | Away                    // in no handler
    | Try                     // trigger: NONE to START
    | Look(i: nat)            // trigger: is ring i empty?
    | Refresh(again: bool)    // write offset of the current ring to the hardware
    | Settle(again: bool)     // state becomes NONE; then, maybe, another trigger
    | Prepare(n: nat)         // trigger: record and page table of the target
    | Announce(n: nat)        // trigger: target and state TRIGGERED
    | Fire                    // trigger: switch register
    | Status                  // interrupt: is the switch over?
    | Check                   // done: is the switch over?
    | Late                    // state becomes COMPLETE
    | Flip                    // target becomes current
    | Reset(blamed: bool)     // recovery: the ring on the hardware becomes current; then all starts afresh
    | Holds(r: nat, w: nat, stage: Stage)   // submitter with the lock of ring r, to make w its write offset

  /** What a submitter with the lock does next. */
  datatype Stage =
    | Asks                    // is the state NONE?
    | Saw                     // it was: is this the current ring?
    | Store                   // it is: register
    | Stored                  // it is in the register: write offset, and the lock is released
    | Skipped                 // it is not: write offset, and the lock is released

  datatype Machine = Machine(
    state: PreemptState,
    cur: nat,
    next: Option<nat>,
    rings: seq<Slot>,
    fault: bool,
    reg: nat,
    source: nat,              // the ring whose offset was last put into the register
    cntl: bool,
    restore: nat,
    hw: nat,
    pending: bool,            // a completion interrupt is waiting
    irq: Pc,
    task: Pc)

  function At(m: Machine, who: Who): Pc { if who.Irq? then m.irq else m.task }

  function Put(m: Machine, who: Who, pc: Pc): Machine {
    if who.Irq? then m.(irq := pc) else m.(task := pc)
  }

  predicate Storing(pc: Pc) { pc.Holds? && pc.stage.Store? }

  predicate StoredIn(pc: Pc) { pc.Holds? && pc.stage.Stored? }

  /** No submitter has the lock of ring `i`. */
  predicate Free(m: Machine, i: nat) { m.task.Holds? ==> m.task.r != i }

  predicate PcOk(m: Machine, pc: Pc) {
    match pc
    case Look(i) => i < |m.rings|
    case Prepare(n) => n < |m.rings|
    case Announce(n) => n < |m.rings|
    case Holds(r, w, _) => r < |m.rings| && m.rings[r].wptr < w
    case _ => true
  }

  predicate Shaped(m: Machine) {
    && m.cur < |m.rings| && m.hw < |m.rings| && m.restore < |m.rings|
    && (m.next.Some? ==> m.next.value < |m.rings|)
    && PcOk(m, m.irq) && PcOk(m, m.task) && !m.irq.Holds? && !m.irq.Reset?
  }

  /** The lock that the next step takes is free. */
  predicate Unblocked(m: Machine, pc: Pc) {
    match pc
    case Look(i) => Free(m, i)
    case Prepare(n) => Free(m, n)
    case Refresh(_) => Free(m, m.cur)
    case _ => true
  }

  function Cleared(n: nat): (rings: seq<Slot>)
    ensures |rings| == n && forall i :: 0 <= i < n ==> rings[i] == Slot(0, 0, 0)
  {
    seq(n, _ => Slot(0, 0, 0))
  }

  /** The GPU comes back on the current ring, with all rings empty. */
  function Restarted(m: Machine): Machine {
    m.(state := NoPreempt, rings := Cleared(|m.rings|), fault := false, reg := 0, source := m.cur, cntl := false,
       hw := m.cur)
  }

  /** Where a thread at `pc` goes next. */
  function Goes(m: Machine, pc: Pc): Pc
    requires Shaped(m) && PcOk(m, pc)
  {
    match pc
    case Away => Away
    case Try => if m.state == NoPreempt then Look(0) else Away
    case Look(i) =>
      if !m.rings[i].Empty() then (if i == m.cur then Refresh(false) else Prepare(i))
      else if i + 1 < |m.rings| then Look(i + 1) else Settle(false)
    case Refresh(again) => Settle(again)
    case Settle(again) => if again then Try else Away
    case Prepare(n) => Announce(n)
    case Announce(_) => Fire
    case Fire => Away
    case Status => if m.cntl then Late else Flip
    case Check => if m.cntl then Try else Flip
    case Late => Away
    case Flip => Refresh(true)
    case Reset(blamed) => if blamed then Away else Reset(true)
    case Holds(r, w, Asks) => Holds(r, w, if m.state == NoPreempt then Saw else Skipped)
    case Holds(r, w, Saw) => Holds(r, w, if m.cur == r then Store else Skipped)
    case Holds(r, w, Store) => Holds(r, w, Stored)
    case Holds(_, _, _) => Away
  }

  /** What it does on the way. */
  function Does(m: Machine, pc: Pc): Machine
    requires Shaped(m) && PcOk(m, pc) && (pc.Flip? ==> m.next.Some?)
  {
    match pc
    case Try => if m.state == NoPreempt then m.(state := Started) else m
    case Refresh(_) => m.(reg := m.rings[m.cur].wptr, source := m.cur)
    case Settle(_) => m.(state := NoPreempt)
    case Prepare(n) => m.(rings := m.rings[n := m.rings[n].(record := m.rings[n].wptr)])
    case Announce(n) => m.(restore := n, next := Some(n), state := Triggered)
    case Fire => m.(cntl := true)
    case Check => if m.cntl then m.(fault := true) else m
    case Late => m.(state := Complete)
    case Flip => m.(cur := m.next.value, next := None)
    case Reset(blamed) => if blamed then Restarted(m) else m.(cur := m.hw)
    case Holds(r, w, Store) => m.(reg := w, source := r)
    case Holds(r, w, Stored) => m.(rings := m.rings[r := m.rings[r].(wptr := w)])
    case Holds(r, w, Skipped) => m.(rings := m.rings[r := m.rings[r].(wptr := w)])
    case _ => m
  }

  /** One step of the thread `who`. */
  function Move(m: Machine, who: Who): Machine
    requires Shaped(m) && At(m, who) != Away && (At(m, who) == Flip ==> m.next.Some?)
  {
    Put(Does(m, At(m, who)), who, Goes(m, At(m, who)))
  }

  datatype Step =
    | Moves(who: Who)
    | Submits(r: nat, w: nat)   // the mutex holder takes the lock of ring r, to make w its write offset
    | Retires                   // the interrupt of a finished submission, which triggers
    | Interrupts                // the interrupt of a finished switch
    | Schedules(awake: bool)
    | Works(awake: bool)
    | Restarts(fault: bool)     // the mutex holder recovers from a fault, or powers up
    | TimesOut
    | Reports(v: nat)
    | Switches

  predicate Enabled(m: Machine, s: Step) {
    Shaped(m) &&
    match s
    case Moves(who) =>
      At(m, who) != Away && (At(m, who) == Flip ==> m.next.Some?) && Unblocked(m, At(m, who))
    case Submits(r, w) => m.task == Away && r < |m.rings| && m.rings[r].wptr < w
    case Retires => m.irq == Away
    case Interrupts => m.pending && m.irq == Away
    case Schedules(_) => m.task == Away
    case Works(_) => m.task == Away
    case Restarts(_) => m.task == Away
    case TimesOut => true
    case Reports(v) => m.rings[m.hw].rptr <= v <= m.reg
    case Switches => m.cntl
  }

  function Next(m: Machine, s: Step): Machine
    requires Enabled(m, s)
  {
    match s
    case Moves(who) => Move(m, who)
    case Submits(r, w) => m.(task := Holds(r, w, Asks))
    case Retires => m.(irq := Try)
    case Interrupts =>
      var m1 := m.(pending := false);
      if m.state == Triggered then m1.(state := Pending, irq := Status) else m1
    case Schedules(awake) => m.(task := if m.state == Complete && awake then Check else Try)
    case Works(awake) =>
      if m.state != Faulted then m
      else if awake && !m.cntl then m.(task := Late)
      else m.(fault := true)
    case Restarts(fault) => m.(task := Reset(!fault))
    case TimesOut => if m.state == Triggered then m.(state := Faulted) else m
    case Reports(v) => m.(rings := m.rings[m.hw := m.rings[m.hw].(rptr := v)])
    case Switches =>
      var rings := m.rings[m.hw := m.rings[m.hw].(record := m.reg)];
      m.(rings := rings, hw := m.restore, reg := rings[m.restore].record, source := m.restore, cntl := false,
         pending := true)
  }

  /** The thread is inside a section that no other thread may be in. */
  predicate Inside(pc: Pc) { !pc.Away? && !pc.Try? && !pc.Holds? && !pc.Reset? }

  predicate Resting(m: Machine) { !m.cntl && m.hw == m.cur }

  /** The write offset of a ring, counting one that is in the register and not yet published. */
  function Written(m: Machine, i: nat): nat
    requires i < |m.rings|
  {
    if StoredIn(m.task) && m.task.r == i then m.task.w else m.rings[i].wptr
  }

  predicate RecordOk(m: Machine, n: nat)
    requires Shaped(m)
  {
    n < |m.rings| && n != m.cur && m.rings[n].rptr <= m.rings[n].record <= m.rings[n].wptr
  }

  /** The hardware has been pointed at the next ring, and is on the one or the other. */
  predicate Flying(m: Machine)
    requires Shaped(m)
  {
    && m.next.Some? && m.next.value != m.cur && m.restore == m.next.value
    && (if m.cntl then m.hw == m.cur && RecordOk(m, m.restore) else m.hw == m.next.value)
  }

  predicate Searching(m: Machine, pc: Pc)
    requires Shaped(m)
  {
    match pc
    case Look(_) => true
    case Refresh(again) => !again
    case Settle(again) => !again
    case Prepare(n) => n != m.cur
    case Announce(n) => RecordOk(m, n)
    case _ => false
  }

  predicate Flipped(pc: Pc) { (pc.Refresh? || pc.Settle?) && pc.again }

  /** After the flip the finishing thread rests; before it the switch is still in the air. */
  predicate Finishing(m: Machine, pc: Pc)
    requires Shaped(m)
  {
    if Flipped(pc) then Resting(m) else Flying(m) && (pc.Flip? ==> !m.cntl)
  }

  predicate Firing(m: Machine) { m.irq.Fire? || m.task.Fire? }

  /** A submitter that found NONE has ring r locked, so no switch to r can have begun since. */
  predicate Claims(pc: Pc, r: nat) {
    pc.Holds? && pc.r == r && !pc.stage.Asks? && !pc.stage.Skipped?
  }

  predicate Undisturbed(m: Machine) {
    && (m.irq.Announce? ==> !Claims(m.task, m.irq.n))
    && (m.state != NoPreempt && m.state != Started && m.next.Some? ==> !Claims(m.task, m.next.value))
    && (Flipped(m.irq) ==> !Claims(m.task, m.cur))
  }

  /** The state word says which section is occupied, and by whom. */
  predicate Sections(m: Machine)
    requires Shaped(m)
  {
    && !(Inside(m.irq) && Inside(m.task))
    && match m.state
       case NoPreempt => !Inside(m.irq) && !Inside(m.task) && Resting(m)
       case Started => Resting(m) && (Searching(m, m.irq) || Searching(m, m.task))
       case Triggered =>
         if Firing(m) then Resting(m) && m.next == Some(m.restore) && RecordOk(m, m.restore)
         else !Inside(m.irq) && !Inside(m.task) && Flying(m)
       case Pending => (m.irq.Status? || m.irq.Late? || m.irq.Flip? || Flipped(m.irq)) && Finishing(m, m.irq)
       case Complete =>
         && !Inside(m.irq) && (Inside(m.task) ==> m.task.Check? || m.task.Flip? || Flipped(m.task))
         && Finishing(m, m.task)
       case Faulted =>
         !Inside(m.irq) && (Inside(m.task) ==> m.task.Late?) && Flying(m) && (m.task.Late? ==> !m.cntl)
  }

  /** The register holds an offset of the ring the hardware is on, not beyond what was written to it. */
  predicate Offsets(m: Machine)
    requires Shaped(m)
  {
    && (forall i :: 0 <= i < |m.rings| ==> m.rings[i].rptr <= Written(m, i))
    && m.source == m.hw && m.rings[m.hw].rptr <= m.reg <= Written(m, m.hw)
    && (StoredIn(m.task) && m.task.r == m.hw ==> m.reg == m.task.w)
  }

  /** The mutex holder has stopped the GPU, and has yet to start it afresh. */
  predicate Restarting(m: Machine) { m.task.Reset? && m.task.blamed }

  predicate Steady(m: Machine) {
    Shaped(m) && !Restarting(m) && Sections(m) && Offsets(m) && Undisturbed(m)
  }

  /** Nothing is asked of a stopped GPU but that a handler which is still under way finds its target. */
  predicate Halted(m: Machine) {
    && Shaped(m) && !m.irq.Check? && (m.state == Triggered ==> m.next.Some?)
    && (m.irq.Status? || m.irq.Flip? ==> m.state == Pending && m.next.Some?)
  }

  predicate Sound(m: Machine) { if Restarting(m) then Halted(m) else Steady(m) }

  /** By the state, the current ring and the switch register, the hardware is still on ring `r`. */
  predicate StillOn(m: Machine, r: nat) {
    m.cur == r && (m.state == NoPreempt || m.state == Started || Firing(m) || m.cntl)
  }

  /** No completion interrupt and no timeout is taken between the write of the state and the write of the
      switch register, no submitter writes the register when the hardware has left its ring since it looked
      at the state, and the GPU is not started afresh while the interrupt is still in a handler. */
  predicate Timely(m: Machine, s: Step) {
    if Restarting(m) then s == Moves(Task) ==> !Inside(m.irq)
    else
      && ((s.Interrupts? || s.TimesOut?) && m.state == Triggered ==> !Firing(m))
      && (s == Moves(Task) && Storing(m.task) ==> StillOn(m, m.task.r))
  }

  predicate Init(m: Machine) {
    && Shaped(m) && m.state == NoPreempt && m.cur == m.hw == m.source == 0 && m.reg == 0 && !m.cntl && !m.pending
    && m.irq == m.task == Away
    && forall i :: 0 <= i < |m.rings| ==> m.rings[i] == Slot(0, 0, 0)
  }

  lemma SteadyIff(m: Machine)
    ensures Steady(m) <==> Sound(m) && !Restarting(m)
  {
  }

  lemma InitSound(m: Machine)
    requires Init(m)
    ensures Sound(m)
  {
  }

  /** Offsets are about the rings, the register and what a submitter has written, and nothing else. */
  lemma OffsetsStay(m: Machine, t: Machine)
    requires Shaped(m) && Offsets(m) && Shaped(t)
    requires t.rings == m.rings && t.reg == m.reg && t.source == m.source && t.hw == m.hw
    requires t.task == m.task || !(StoredIn(t.task) || StoredIn(m.task))
    ensures Offsets(t)
  {
  }

  /** A thread that goes where no switch is announced or flipped disturbs no submitter. */
  lemma Quiet(m: Machine, who: Who, state: PreemptState, pc: Pc)
    requires Undisturbed(m) && !pc.Announce? && !Flipped(pc) && !pc.Holds?
    requires state == m.state || state == NoPreempt || state == Started
    ensures Undisturbed(Put(m.(state := state), who, pc))
  {
    if who.Irq? { QuietIrq(m, state, pc); } else { QuietTask(m, state, pc); }
    hide Undisturbed;
  }

  lemma QuietIrq(m: Machine, state: PreemptState, pc: Pc)
    requires Undisturbed(m) && !pc.Announce? && !Flipped(pc)
    requires state == m.state || state == NoPreempt || state == Started
    ensures Undisturbed(m.(state := state, irq := pc))
  {
    hide Claims;
  }

  lemma QuietTask(m: Machine, state: PreemptState, pc: Pc)
    requires Undisturbed(m) && !pc.Holds?
    requires state == m.state || state == NoPreempt || state == Started
    ensures Undisturbed(m.(state := state, task := pc))
  {
  }

  /** Where a thread is outside the sections does not matter to them. */
  lemma Outside(m: Machine, who: Who, pc: Pc)
    requires Shaped(m) && Sections(m) && PcOk(m, pc) && (pc.Holds? || pc.Reset? ==> who.Task?)
    requires !Inside(At(m, who)) && !Inside(pc)
    ensures var t := Put(m, who, pc); Shaped(t) && Sections(t)
  {
    if who.Irq? { IrqOutside(m, pc); } else { TaskOutside(m, pc); }
    hide Sections, Shaped;
  }

  lemma IrqOutside(m: Machine, pc: Pc)
    requires Shaped(m) && Sections(m) && !Inside(m.irq) && (pc.Away? || pc.Try?)
    ensures var t := m.(irq := pc); Shaped(t) && Sections(t)
  {
  }

  lemma TaskOutside(m: Machine, pc: Pc)
    requires Shaped(m) && Sections(m) && PcOk(m, pc) && !Inside(m.task) && !Inside(pc)
    ensures var t := m.(task := pc); Shaped(t) && Sections(t)
  {
  }

  lemma Enters(m: Machine, who: Who)
    requires Shaped(m) && Sections(m) && At(m, who) == Try && m.state == NoPreempt
    ensures var t := Put(m.(state := Started), who, Look(0)); Shaped(t) && Sections(t)
  {
  }

  lemma TrySteady(m: Machine, who: Who)
    requires Steady(m) && At(m, who) == Try
    ensures Steady(Move(m, who))
  {
    hide Sections, Offsets, Undisturbed;
    if m.state == NoPreempt {
      Enters(m, who);
      Quiet(m, who, Started, Look(0));
    } else {
      Outside(m, who, Away);
      Quiet(m, who, m.state, Away);
    }
    OffsetsStay(m, Move(m, who));
  }

  /** A search goes on at `pc`, which suits the rings as they are. */
  lemma SearchSections(m: Machine, who: Who, pc: Pc)
    requires Shaped(m) && Sections(m) && At(m, who).Look? && PcOk(m, pc) && Searching(m, pc)
    ensures Shaped(Put(m, who, pc)) && Sections(Put(m, who, pc))
  {
    if who.Irq? { IrqSearches(m, pc); } else { TaskSearches(m, pc); }
    hide Sections, Shaped;
  }

  lemma IrqSearches(m: Machine, pc: Pc)
    requires Shaped(m) && Sections(m) && m.irq.Look? && PcOk(m, pc) && Searching(m, pc)
    ensures var t := m.(irq := pc); Shaped(t) && Sections(t)
  {
  }

  lemma TaskSearches(m: Machine, pc: Pc)
    requires Shaped(m) && Sections(m) && m.task.Look? && PcOk(m, pc) && Searching(m, pc)
    ensures var t := m.(task := pc); Shaped(t) && Sections(t)
  {
  }

  /** Nothing but the position of a thread inside a search has changed. */
  lemma SearchOn(m: Machine, who: Who, pc: Pc)
    requires Shaped(m) && Offsets(m) && Undisturbed(m) && At(m, who).Look? && PcOk(m, pc)
    requires pc.Look? || pc.Prepare? || pc == Refresh(false) || pc == Settle(false)
    ensures Shaped(Put(m, who, pc)) && Offsets(Put(m, who, pc)) && Undisturbed(Put(m, who, pc))
  {
  }

  lemma LookSteady(m: Machine, who: Who)
    requires Steady(m) && At(m, who).Look?
    ensures Steady(Move(m, who))
  {
    hide Sections, Offsets, Undisturbed;
    var i := At(m, who).i;
    var pc := if !m.rings[i].Empty() then (if i == m.cur then Refresh(false) else Prepare(i))
              else if i + 1 < |m.rings| then Look(i + 1) else Settle(false);
    SearchSections(m, who, pc);
    SearchOn(m, who, pc);
  }

  /** A switch is recorded, announced and fired in order. */
  lemma PrepareSections(m: Machine, who: Who)
    requires Steady(m) && Enabled(m, Moves(who)) && At(m, who).Prepare?
    ensures Shaped(Move(m, who)) && Sections(Move(m, who))
  {
    hide Undisturbed;
  }

  lemma AnnounceSections(m: Machine, who: Who)
    requires Steady(m) && Enabled(m, Moves(who)) && At(m, who).Announce?
    ensures Shaped(Move(m, who)) && Sections(Move(m, who))
  {
    hide Offsets, Undisturbed;
  }

  lemma FireSections(m: Machine, who: Who)
    requires Steady(m) && Enabled(m, Moves(who)) && At(m, who) == Fire
    ensures Shaped(Move(m, who)) && Sections(Move(m, who))
  {
    hide Offsets, Undisturbed;
  }

  lemma PrepareSteady(m: Machine, who: Who)
    requires Steady(m) && Enabled(m, Moves(who)) && At(m, who).Prepare?
    ensures Steady(Move(m, who))
  {
    hide Sections;
    PrepareSections(m, who);
    if who.Irq? { assert m.irq.Prepare?; } else { assert m.task.Prepare?; }
  }

  lemma AnnounceSteady(m: Machine, who: Who)
    requires Steady(m) && Enabled(m, Moves(who)) && At(m, who).Announce?
    ensures Steady(Move(m, who))
  {
    hide Sections, Offsets;
    AnnounceSections(m, who);
    OffsetsStay(m, Move(m, who));
  }

  lemma FireSteady(m: Machine, who: Who)
    requires Steady(m) && Enabled(m, Moves(who)) && At(m, who) == Fire
    ensures Steady(Move(m, who))
  {
    hide Sections, Offsets;
    FireSections(m, who);
    OffsetsStay(m, Move(m, who));
  }

  lemma RefreshSections(m: Machine, who: Who)
    requires Steady(m) && Enabled(m, Moves(who)) && (At(m, who).Refresh? || At(m, who).Settle?)
    ensures Shaped(Move(m, who)) && Sections(Move(m, who))
  {
    hide Offsets, Undisturbed;
  }

  lemma RefreshSteady(m: Machine, who: Who)
    requires Steady(m) && Enabled(m, Moves(who)) && (At(m, who).Refresh? || At(m, who).Settle?)
    ensures Steady(Move(m, who))
  {
    RefreshSections(m, who);
    hide Sections;
  }

  predicate Ending(pc: Pc) { pc.Status? || pc.Check? || pc.Late? || pc.Flip? }

  lemma FinishIrq(m: Machine)
    requires Steady(m) && Enabled(m, Moves(Irq)) && Ending(m.irq)
    ensures Steady(Move(m, Irq))
  {
    hide Sections, Offsets;
    IrqEnds(m);
    OffsetsStay(m, Move(m, Irq));
  }

  lemma IrqEnds(m: Machine)
    requires Steady(m) && Enabled(m, Moves(Irq)) && Ending(m.irq)
    ensures m.state == Pending && Shaped(Move(m, Irq)) && Sections(Move(m, Irq))
  {
    hide Offsets, Undisturbed;
  }

  lemma FinishTask(m: Machine)
    requires Steady(m) && Enabled(m, Moves(Task)) && Ending(m.task)
    ensures Steady(Move(m, Task))
  {
    hide Sections, Offsets;
    TaskEnds(m);
    OffsetsStay(m, Move(m, Task));
  }

  lemma TaskEnds(m: Machine)
    requires Steady(m) && Enabled(m, Moves(Task)) && Ending(m.task)
    ensures Shaped(Move(m, Task)) && Sections(Move(m, Task))
  {
    hide Offsets, Undisturbed;
  }

  /** Sections do not care where a submitter is, nor what it has in the register. */
  lemma SubmitterMoves(m: Machine, pc: Pc, reg: nat, source: nat)
    requires Shaped(m) && Sections(m) && m.task.Holds? && PcOk(m, pc) && (pc.Holds? || pc == Away)
    ensures var t := m.(task := pc, reg := reg, source := source); Shaped(t) && Sections(t)
  {
  }

  lemma PublishSections(m: Machine)
    requires Shaped(m) && Sections(m) && m.task.Holds? && (m.task.stage.Stored? || m.task.stage.Skipped?)
    ensures Shaped(Move(m, Task)) && Sections(Move(m, Task))
  {
  }

  lemma SubmitterSections(m: Machine)
    requires Steady(m) && m.task.Holds?
    ensures Shaped(Move(m, Task)) && Sections(Move(m, Task))
  {
    hide Offsets, Undisturbed, Sections;
    match m.task
    case Holds(r, w, Asks) =>
      SubmitterMoves(m, Holds(r, w, if m.state == NoPreempt then Saw else Skipped), m.reg, m.source);
    case Holds(r, w, Saw) => SubmitterMoves(m, Holds(r, w, if m.cur == r then Store else Skipped), m.reg, m.source);
    case Holds(r, w, Store) => SubmitterMoves(m, Holds(r, w, Stored), w, r);
    case _ => PublishSections(m);
  }

  lemma SubmitterLooks(m: Machine)
    requires Steady(m) && m.task.Holds? && (m.task.stage.Asks? || m.task.stage.Saw?)
    ensures Steady(Move(m, Task))
  {
    SubmitterSections(m);
  }

  lemma StoreSteady(m: Machine)
    requires Steady(m) && Storing(m.task)
    ensures Steady(Move(m, Task)) <==> StillOn(m, m.task.r)
  {
    SubmitterSections(m);
  }

  lemma PublishSteady(m: Machine)
    requires Steady(m) && m.task.Holds? && (m.task.stage.Stored? || m.task.stage.Skipped?)
    ensures Steady(Move(m, Task))
  {
    SubmitterSections(m);
    hide Sections;
  }

  lemma MoveSteady(m: Machine, who: Who)
    requires Steady(m) && Enabled(m, Moves(who)) && !At(m, who).Reset?
    ensures Steady(Move(m, who)) <==> Timely(m, Moves(who))
  {
    NotSubmitting(m);
    hide Steady, Move, StillOn;
    match At(m, who)
    case Try => TrySteady(m, who);
    case Look(_) => LookSteady(m, who);
    case Prepare(_) => PrepareSteady(m, who);
    case Announce(_) => AnnounceSteady(m, who);
    case Fire => FireSteady(m, who);
    case Refresh(_) => RefreshSteady(m, who);
    case Settle(_) => RefreshSteady(m, who);
    case Holds(_, _, Asks) => SubmitterLooks(m);
    case Holds(_, _, Saw) => SubmitterLooks(m);
    case Holds(_, _, Store) => StoreSteady(m);
    case Holds(_, _, _) => PublishSteady(m);
    case _ => if who.Irq? { FinishIrq(m); } else { FinishTask(m); }
  }

  lemma NotSubmitting(m: Machine)
    requires Steady(m)
    ensures !m.irq.Holds? && !m.irq.Reset?
  {
  }

  lemma ReportSteady(m: Machine, v: nat)
    requires Steady(m) && Enabled(m, Step.Reports(v))
    ensures Steady(Next(m, Step.Reports(v)))
  {
    ReportSections(m, v);
    hide Sections, Undisturbed;
  }

  lemma ReportSections(m: Machine, v: nat)
    requires Steady(m) && Enabled(m, Step.Reports(v))
    ensures var t := Next(m, Step.Reports(v)); Shaped(t) && Sections(t) && Undisturbed(t)
  {
    hide Offsets;
  }

  lemma SwitchSteady(m: Machine)
    requires Steady(m) && Enabled(m, Step.Switches)
    ensures Steady(Next(m, Step.Switches))
  {
  }

  lemma InterruptSteady(m: Machine)
    requires Steady(m) && Enabled(m, Step.Interrupts)
    ensures Steady(Next(m, Step.Interrupts)) <==> Timely(m, Step.Interrupts)
  {
    var t := Next(m, Step.Interrupts);
    InterruptSections(m);
    OffsetsStay(m, t);
    hide Sections, Offsets;
  }

  lemma InterruptSections(m: Machine)
    requires Steady(m) && Enabled(m, Step.Interrupts)
    ensures var t := Next(m, Step.Interrupts); Shaped(t) && (Sections(t) <==> Timely(m, Step.Interrupts))
  {
    hide Offsets, Undisturbed, Sections;
    if m.state != Triggered {
      NoInterrupt(m);
    } else if Firing(m) {
      InterruptTooSoon(m);
    } else {
      InterruptInTime(m);
    }
  }

  lemma NoInterrupt(m: Machine)
    requires Shaped(m) && Sections(m)
    ensures var t := m.(pending := false); Shaped(t) && Sections(t)
  {
  }

  lemma InterruptTooSoon(m: Machine)
    requires Shaped(m) && Sections(m) && m.state == Triggered && Firing(m)
    ensures var t := m.(pending := false, state := Pending, irq := Status); Shaped(t) && !Sections(t)
  {
  }

  lemma InterruptInTime(m: Machine)
    requires Shaped(m) && Sections(m) && m.state == Triggered && !Firing(m)
    ensures var t := m.(pending := false, state := Pending, irq := Status); Shaped(t) && Sections(t)
  {
  }

  lemma TimeoutSteady(m: Machine)
    requires Steady(m) && Enabled(m, Step.TimesOut)
    ensures Steady(Next(m, Step.TimesOut)) <==> Timely(m, Step.TimesOut)
  {
  }

  lemma RetireSteady(m: Machine)
    requires Steady(m) && Enabled(m, Step.Retires)
    ensures Steady(Next(m, Step.Retires))
  {
  }

  lemma EntrySteady(m: Machine, pc: Pc)
    requires Steady(m) && m.task == Away && PcOk(m, pc)
    requires pc == Try || pc == Reset(false) || (pc.Holds? && pc.stage.Asks?)
             || (pc == Check && m.state == Complete) || (pc == Late && m.state == Faulted && !m.cntl)
    ensures Steady(m.(task := pc))
  {
    hide Sections, Offsets, Undisturbed;
    if Inside(pc) { TaskEnters(m, pc); } else { TaskOutside(m, pc); }
    OffsetsStay(m, m.(task := pc));
    Unclaimed(m, pc);
  }

  lemma TaskEnters(m: Machine, pc: Pc)
    requires Shaped(m) && Sections(m) && m.task == Away
    requires (pc == Check && m.state == Complete) || (pc == Late && m.state == Faulted && !m.cntl)
    ensures Shaped(m.(task := pc)) && Sections(m.(task := pc))
  {
  }

  lemma Unclaimed(m: Machine, pc: Pc)
    requires Undisturbed(m) && (pc.Holds? ==> pc.stage.Asks?)
    ensures Undisturbed(m.(task := pc))
  {
  }

  lemma WorkSteady(m: Machine, awake: bool)
    requires Steady(m) && Enabled(m, Step.Works(awake))
    ensures Steady(Next(m, Step.Works(awake)))
  {
    EntrySteady(m, Try);
    if m.state == Faulted && !m.cntl { EntrySteady(m, Late); }
    FaultSteady(m);
    hide Steady;
  }

  lemma FaultSteady(m: Machine)
    requires Steady(m)
    ensures Steady(m.(fault := true))
  {
  }

  /** Only what stops the GPU makes a restart begin. */
  lemma StaysUp(m: Machine, s: Step)
    requires Enabled(m, s) && !Restarting(m) && !s.Restarts? && !(s == Moves(Task) && m.task.Reset?)
    ensures !Restarting(Next(m, s))
  {
    if s.Moves? { DoesKeepsPlaces(m, At(m, s.who)); }
    hide Does, Unblocked, PcOk;
  }

  lemma DoesKeepsPlaces(m: Machine, pc: Pc)
    requires Shaped(m) && PcOk(m, pc) && (pc.Flip? ==> m.next.Some?)
    ensures var t := Does(m, pc); t.irq == m.irq && t.task == m.task && |t.rings| == |m.rings|
  {
  }

  /** The GPU is stopped on power-up, or when the ring found on it has become current. */
  lemma StopHalts(m: Machine)
    requires Steady(m) && (m.task == Away || m.task == Reset(false))
    ensures Halted(m.(task := Reset(true))) && Halted(m.(cur := m.hw, task := Reset(true)))
  {
    hide Offsets, Undisturbed;
  }

  /** A handler of the interrupt that goes on while the GPU is stopped. */
  lemma IrqHalted(m: Machine)
    requires Halted(m) && Restarting(m) && Enabled(m, Moves(Irq))
    ensures Halted(Move(m, Irq)) && Restarting(Move(m, Irq))
  {
    hide Unblocked;
    DoesKeepsPlaces(m, m.irq);
  }

  lemma OthersHalted(m: Machine, s: Step)
    requires Halted(m) && Restarting(m) && Enabled(m, s) && !s.Moves?
    ensures Halted(Next(m, s)) && Restarting(Next(m, s))
  {
  }

  /** The fresh start puts the GPU back in order unless the interrupt is still in a handler. */
  lemma RestartSteady(m: Machine)
    requires Halted(m) && Restarting(m)
    ensures Enabled(m, Moves(Task)) && !Restarting(Move(m, Task))
    ensures Steady(Move(m, Task)) <==> !Inside(m.irq)
  {
  }

  lemma HaltedStep(m: Machine, s: Step)
    requires Halted(m) && Restarting(m) && Enabled(m, s)
    ensures Sound(Next(m, s)) <==> Timely(m, s)
  {
    hide Halted, Steady, Move, Restarting, Inside;
    if s == Moves(Irq) {
      IrqHalted(m);
    } else if s == Moves(Task) {
      RestartSteady(m);
    } else {
      OthersHalted(m, s);
    }
  }

  /** The state word and the ring locks work: a step keeps every section to one thread and the register
      with the ring the hardware is on, if and only if it falls neither between the two writes that start
      a switch nor, as a submitter's write, behind the hardware's departure from the submitter's ring, nor,
      as the fresh start of a stopped GPU, into a handler of the interrupt. */
  lemma StepSoundIff(m: Machine, s: Step)
    requires Sound(m) && Enabled(m, s)
    ensures Sound(Next(m, s)) <==> Timely(m, s)
  {
    hide Halted, Steady, Next, Timely, Enabled, Restarting;
    if Restarting(m) {
      HaltedStep(m, s);
    } else if s.Restarts? || (s == Moves(Task) && m.task.Reset?) {
      StopStep(m, s);
    } else {
      StaysUp(m, s);
      SteadyStep(m, s);
    }
  }

  lemma StopStep(m: Machine, s: Step)
    requires Steady(m) && Enabled(m, s) && (s.Restarts? || (s == Moves(Task) && m.task.Reset?))
    ensures Sound(Next(m, s)) && Timely(m, s)
  {
    hide Halted;
    StopHalts(m);
    if s.Restarts? && s.fault { EntrySteady(m, Reset(false)); }
    hide Shaped, Sections, Offsets, Undisturbed;
  }

  lemma SteadyStep(m: Machine, s: Step)
    requires Steady(m) && Enabled(m, s) && !s.Restarts? && !(s == Moves(Task) && m.task.Reset?)
    ensures Steady(Next(m, s)) <==> Timely(m, s)
  {
    NotSubmitting(m);
    hide Steady, Move, StillOn, Firing, Unblocked;
    match s
    case Moves(who) => MoveSteady(m, who);
    case Submits(r, w) => EntrySteady(m, Holds(r, w, Asks));
    case Retires => RetireSteady(m);
    case Reports(v) => ReportSteady(m, v);
    case Switches => SwitchSteady(m);
    case Interrupts => InterruptSteady(m);
    case TimesOut => TimeoutSteady(m);
    case Schedules(awake) => EntrySteady(m, if m.state == Complete && awake then Check else Try);
    case Works(awake) => WorkSteady(m, awake);
  }

  predicate Runs(m: Machine, steps: seq<Step>)
    decreases steps
  {
    steps == [] || (Enabled(m, steps[0]) && Runs(Next(m, steps[0]), steps[1..]))
  }

  function After(m: Machine, steps: seq<Step>): Machine
    requires Runs(m, steps)
    decreases steps
  {
    if steps == [] then m else After(Next(m, steps[0]), steps[1..])
  }

  predicate AllTimely(m: Machine, steps: seq<Step>)
    requires Runs(m, steps)
    decreases steps
  {
    steps == [] || (Timely(m, steps[0]) && AllTimely(Next(m, steps[0]), steps[1..]))
  }

  lemma {:induction false} RunSound(m: Machine, steps: seq<Step>)
    requires Sound(m) && Runs(m, steps) && AllTimely(m, steps)
    ensures Sound(After(m, steps))
    decreases steps
  {
    hide Sound, Next, Enabled, Timely;
    if steps != [] {
      StepSoundIff(m, steps[0]);
      RunSound(Next(m, steps[0]), steps[1..]);
    }
  }

  /** The step is about to put a value into the register that is not there yet. */
  predicate Writes(m: Machine, s: Step) {
    s.Moves? && (At(m, s.who).Refresh? || Storing(At(m, s.who)))
  }

  /** By the state and the current ring, no switch has been fired since the submitter looked. */
  predicate Unfired(m: Machine, r: nat) {
    m.cur == r && (m.state == NoPreempt || m.state == Started || Firing(m))
  }

  lemma OnlyWritesWrite(m: Machine, s: Step)
    requires Enabled(m, s) && !s.Switches? && Next(m, s).reg != m.reg
    ensures Writes(m, s) || (Restarting(m) && s == Moves(Task))
  {
    if s == Moves(Irq) {
      IrqWrites(m);
    } else if s == Moves(Task) {
      TaskWrites(m);
    }
    hide Unblocked, Move, Shaped;
  }

  lemma IrqWrites(m: Machine)
    requires Enabled(m, Moves(Irq)) && Move(m, Irq).reg != m.reg
    ensures m.irq.Refresh?
  {
    hide Unblocked, PcOk;
  }

  lemma TaskWrites(m: Machine)
    requires Enabled(m, Moves(Task)) && Move(m, Task).reg != m.reg
    ensures m.task.Refresh? || Storing(m.task) || Restarting(m)
  {
    hide Unblocked, PcOk;
  }

  lemma RefreshIsSafe(m: Machine, who: Who)
    requires Steady(m) && Enabled(m, Moves(who)) && At(m, who).Refresh?
    ensures Resting(m) && Shaped(Move(m, who)) && Resting(Move(m, who))
    ensures Move(m, who).reg == Written(Move(m, who), m.cur)
  {
    hide Undisturbed, Offsets;
  }

  lemma StoreIsSafeIff(m: Machine)
    requires Steady(m) && Storing(m.task)
    ensures Resting(m) && m.task.r == m.cur <==> Unfired(m, m.task.r)
    ensures Shaped(Move(m, Task)) && Move(m, Task).reg == Written(Move(m, Task), m.task.r)
  {
    hide Offsets;
  }

  /** The fresh start leaves the register with the offset of its ring, which is empty. */
  lemma RestartWrites(m: Machine)
    requires Shaped(m) && Restarting(m)
    ensures var t := Move(m, Task); Shaped(t) && Resting(t) && t.reg == Written(t, t.cur) == 0
  {
  }

  /** Software changes the write pointer only by these two writes and by the fresh start of a stopped GPU. The
      write of the handlers comes with no switch in flight and on the current ring; that of a submitter does
      if and only if no switch has been fired since it looked at the state. Either way the register gets that
      ring's write offset. */
  lemma SoftwareWritesAreSafe(m: Machine, s: Step)
    requires Sound(m) && Enabled(m, s) && !s.Switches? && Next(m, s).reg != m.reg
    ensures Writes(m, s) || (Restarting(m) && s == Moves(Task))
    ensures Restarting(m) && s == Moves(Task) ==>
              var t := Next(m, s); Shaped(t) && Resting(t) && t.reg == Written(t, t.cur)
    ensures !Restarting(m) ==>
              var ring := if Storing(At(m, s.who)) then At(m, s.who).r else m.cur;
              && Shaped(Next(m, s)) && ring < |m.rings| && Next(m, s).reg == Written(Next(m, s), ring)
              && (Resting(m) && ring == m.cur <==> (Storing(At(m, s.who)) ==> Unfired(m, ring)))
  {
    hide Steady, Halted, Shaped, Move, Written, Unfired, Unblocked, Restarting;
    OnlyWritesWrite(m, s);
    if Restarting(m) {
      HaltedIsShaped(m);
      if s == Moves(Task) { RestartWrites(m); }
    } else {
      NotSubmitting(m);
      ShapedRings(m);
      MoveRings(m, s.who);
      if Storing(At(m, s.who)) { StoreIsSafeIff(m); } else { RefreshIsSafe(m, s.who); }
    }
  }

  lemma HaltedIsShaped(m: Machine)
    requires Halted(m)
    ensures Shaped(m)
  {
  }

  lemma ShapedRings(m: Machine)
    requires Steady(m)
    ensures m.cur < |m.rings| && (Storing(m.task) ==> m.task.r < |m.rings|)
  {
  }

  lemma MoveRings(m: Machine, who: Who)
    requires Enabled(m, Moves(who)) && Writes(m, Moves(who))
    ensures |Move(m, who).rings| == |m.rings|
  {
    hide Unblocked;
  }
}
