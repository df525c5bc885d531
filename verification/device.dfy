/** The handlers as the driver carries them out, field by field, on one device. */
module DriverDevice {
  import opened Wrappers
  import opened Pm4
  import opened GpuModel
  import R = RingSpace

  class Device {
    var state: PreemptState
    var cur: nat
    var next: Option<nat>
    var prev: Option<nat>
    var rings: seq<Ring>
    var fault: bool
    const default: u64
    var reg: nat
    var cntl: bool
    var restore: nat
    var smmu: u64
    var hw: nat
    var ttbr0: u64
    var taken: multiset<Ctx>
    var deferred: multiset<Ctx>
    ghost var submitting: Option<(nat, Ctx)>   // the command whose submission is under way

    ghost function Abs(): Gpu
      reads this
    {
      Gpu(state, cur, next, prev, rings, fault, default, reg, cntl, restore, smmu, hw, ttbr0, taken, deferred,
          submitting)
    }

    /** A device as it is powered on, with `n` rings. */
    constructor (n: nat, table: u64)
      requires n > 0
      ensures Init(Abs()) && |rings| == n
    {
      state, cur, next, prev := NoPreempt, 0, None, None;
      rings := seq(n, _ => Ring([], 0, 0, 0, 0, 0, table, None, 0, 0, 0));
      fault, default, reg, cntl, restore, smmu := false, table, 0, false, 0, table;
      hw, ttbr0, taken, deferred, submitting := 0, table, multiset{}, multiset{}, None;
    }

    /** Moves the preemption state if it is the expected one. */
    method MoveState(expected: PreemptState, new_state: PreemptState) returns (moved: bool)
      modifies this`state
      ensures moved == (old(state) == expected)
      ensures state == if moved then new_state else old(state)
    {
      moved := state == expected;
      if moved { state := new_state; }
    }

    /** The highest priority ring with work. */
    method NextRingbuffer() returns (n: Option<nat>)
      ensures n == NextRing(rings, 0)
    {
      var i := 0;
      while i < |rings|
        invariant i <= |rings| && NextRing(rings, 0) == NextRing(rings, i)
      {
        if rings[i].rptr != rings[i].Wptr() { return Some(i); }
        i := i + 1;
      }
      return None;
    }

    /** The write offset of the current ring goes to the hardware if it is not there already. */
    method RefreshWptr()
      requires Indexed(Abs())
      modifies this`reg
      ensures Abs() == UpdateWptr(old(Abs()))
    {
      if reg != rings[cur].Wptr() { reg := rings[cur].Wptr(); }
    }

    method ArmSwitch(n: nat)
      requires n < |rings|
      modifies this
      ensures Abs() == Arm(old(Abs()), n)
    {
      var table := rings[n].scratch;
      rings := rings[n := rings[n].(record := rings[n].Wptr())];
      smmu := table;
      restore := n;
      next := Some(n);
      state := Triggered;
      cntl := true;
    }

    method PreemptionTrigger()
      requires Indexed(Abs())
      modifies this
      ensures Abs() == Trigger(old(Abs()))
    {
      hide NextRing;
      var moved := MoveState(NoPreempt, Started);
      if !moved { return; }
      var found := NextRingbuffer();
      if found == None || found == Some(cur) {
        if found != None { RefreshWptr(); }
        state := NoPreempt;
        return;
      }
      ArmSwitch(found.value);
    }

    /** The target becomes current and gets its write offset. */
    method FinishSwitch()
      requires Indexed(Abs()) && next.Some?
      modifies this
      ensures Abs() == Finish(old(Abs()))
      ensures cur == old(next).value && prev == Some(old(cur)) && next == None && state == NoPreempt
      ensures reg == rings[cur].Wptr() && rings == old(rings)
    {
      prev := Some(cur);
      cur := next.value;
      next := None;
      RefreshWptr();
      state := NoPreempt;
    }

    /** The completion interrupt. */
    method PreemptCallback()
      requires Indexed(Abs()) && (state == Triggered ==> next.Some?)
      modifies this
      ensures Abs() == Callback(old(Abs()))
    {
      var moved := MoveState(Triggered, Pending);
      if !moved { return; }
      if cntl {
        state := Complete;
        return;
      }
      FinishSwitch();
      PreemptionTrigger();
    }

    method PreemptionDone(awake: bool)
      requires Indexed(Abs()) && next.Some?
      modifies this
      ensures Abs() == Done(old(Abs()), awake)
    {
      if !awake { return; }
      if cntl {
        fault := true;
        return;
      }
      FinishSwitch();
    }

    /** The dispatcher looks for a switch to complete and for a new one to make. */
    method PreemptionSchedule(awake: bool)
      requires Indexed(Abs()) && (state == Complete ==> next.Some?)
      modifies this
      ensures Abs() == Schedule(old(Abs()), awake)
    {
      if state == Complete { PreemptionDone(awake); }
      PreemptionTrigger();
    }

    method PreemptionTimer()
      modifies this`state
      ensures Abs() == Timer(old(Abs()))
    {
      var _ := MoveState(Triggered, Faulted);
    }

    method PreemptionWorker(awake: bool)
      modifies this
      ensures Abs() == Worker(old(Abs()), awake)
    {
      if state == Faulted {
        if awake && !cntl {
          state := Complete;
          return;
        }
        fault := true;
      }
    }

    /** The end of a submission: the ring's new commands count, and the hardware is told if it is on
        this ring and nothing is being switched. */
    method RingSubmit(r: nat, cmds: seq<Cmd>, written: nat)
      requires Indexed(Abs()) && r < |rings|
      modifies this
      ensures var x := old(rings[r]).(stream := old(rings[r]).stream + cmds, written := written);
              Abs() == HandOver(SetRing(old(Abs()), r, x), r)
    {
      var stream := rings[r].stream + cmds;
      if state == NoPreempt && cur == r { reg := |stream|; }
      rings := rings[r := rings[r].(stream := stream, written := written)];
    }

    method RingAddCmds(r: nat, front: seq<Cmd>, body: seq<Cmd>, size: Size, detached: bool) returns (ret: Ret)
      requires Indexed(Abs()) && r < |rings|
      modifies this
      ensures Abs() == AddCmds(old(Abs()), r, front, body, size, detached)
      ensures ret == AddResult(old(Abs()), r, size, detached)
      ensures detached ==> ret == NoEntry && Abs() == old(Abs())
      ensures !detached && old(fault) ==> ret == Protocol && Abs() == old(Abs())
      ensures !detached && !old(fault) ==>
        && rings[r].timestamp == old(rings[r].timestamp) + 1
        && ret == if old(rings[r]).Slot(size.dwords) == R.NoSpace then NoSpc else Ok
    {
      hide Submission, HandOver, R.Alloc;
      if detached { return NoEntry; }
      if fault { return Protocol; }
      rings := rings[r := rings[r].(timestamp := rings[r].timestamp + 1)];
      var space := rings[r].Slot(size.dwords);
      if space == R.NoSpace { return NoSpc; }
      // The slot's end is taken back to the end of what was written.
      var start := if space.wrapped then (rings[r].written / R.RB_DWORDS + 1) * R.RB_DWORDS else rings[r].written;
      var cmds := Submission(rings[r].timestamp, front, body);
      UpdateTwice(old(rings), r, rings[r],
                  rings[r].(stream := rings[r].stream + cmds, written := start + size.used));
      RingSubmit(r, cmds, start + size.used);
      AddStamps(old(Abs()), r, front, body, size, detached);
      return Ok;
    }

    /** The put of a context that the ring leaves: when the ring reaches its timestamp, or at once. */
    method PutOnTimestamp(active: Option<Ctx>, eventOk: bool)
      modifies this`taken, this`deferred
      ensures Abs() == PutLater(old(Abs()), active, eventOk)
    {
      if active == None { return; }
      if eventOk {
        deferred := deferred + multiset{active.value};
      } else {
        taken := taken - multiset{active.value};
      }
    }

    method DrawctxtSwitch(r: nat, c: Ctx, env: Env) returns (ret: Ret)
      requires Indexed(Abs()) && r < |rings|
      modifies this
      ensures Abs() == SwitchContext(old(Abs()), r, c, env) && ret == SwitchResult(old(Abs()), r, c, env)
      ensures old(rings[r]).active != Some(c) && (env.detached || !env.alive) ==> ret == NoEntry && Abs() == old(Abs())
      ensures old(rings[r]).active == Some(c) || (!env.detached && env.alive) ==>
        ret == Ok && rings[r].active == Some(c)
    {
      hide AddCmds, SwitchBody, PutLater, AddResult, SwitchDwords;
      if rings[r].active == Some(c) { return Ok; }
      if env.detached { return NoEntry; }
      if !env.alive { return NoEntry; }
      taken := taken + multiset{c};
      var active := rings[r].active;
      var body := SwitchBody(active, c, default);
      var _ := RingAddCmds(r, [], body, Size(SwitchDwords(body), env.used), false);
      PutOnTimestamp(active, env.eventOk);
      rings := rings[r := rings[r].(active := Some(c))];
      return Ok;
    }

    /** A user command, under the device mutex from beginning to end. */
    method SubmitCommand(r: nat, c: Ctx, front: nat, n: nat, env: Env, size: Size, detached: bool)
      returns (ret: Ret)
      requires Indexed(Abs()) && r < |rings| && submitting == None
      modifies this
      ensures Abs() == SubmitCmd(old(Abs()), r, c, front, n, env, size, detached) && submitting == None
      ensures old(rings[r]).active != Some(c) && (env.detached || !env.alive) ==> ret == NoEntry && Abs() == old(Abs())
      ensures ret == Ok ==> !detached && rings[r].active == Some(c)
    {
      hide SwitchContext, AddCmds;
      ret := DrawctxtSwitch(r, c, env);
      if ret != Ok {
        SwitchRefused(old(Abs()), r, c, env);
        return;
      }
      submitting := Some((r, c));
      AddKeeps(Abs(), r, Buffers(c, front), Buffers(c, n), size, detached);
      ret := RingAddCmds(r, Buffers(c, front), Buffers(c, n), size, detached);
      submitting := None;
    }

    /** No ring keeps an active context; each gives its reference back. */
    method SetActiveContextsNull()
      modifies this`rings, this`taken
      ensures Abs() == SetActiveNull(old(Abs()))
    {
      hide ActiveRefs, Idle;
      NoRefs();
      ghost var was, held := rings, taken;
      assert was[..0] == [] && held - multiset{} == held;
      var i := 0;
      while i < |rings|
        invariant i <= |rings| == |was|
        invariant rings[..i] == AllIdle(was[..i]) && rings[i..] == was[i..]
        invariant taken == held - ActiveRefs(was[..i])
      {
        GiveBack(held, was, i);
        Walk(rings, was, i, Idle(rings[i]));
        IdleMore(was, i);
        if rings[i].active != None { taken := taken - multiset{rings[i].active.value}; }
        rings := rings[i := Idle(rings[i])];
        i := i + 1;
      }
      assert was[..i] == was && rings[..i] == rings;
    }

    method PreemptionStart()
      modifies this`state, this`smmu, this`rings
      ensures Abs() == Start(old(Abs()))
    {
      state := NoPreempt;
      smmu := default;
      ghost var was := rings;
      var i := 0;
      while i < |rings|
        invariant state == NoPreempt && smmu == default && i <= |rings| == |was|
        invariant forall k :: 0 <= k < |was| ==>
          rings[k] == if k < i then was[k].(record := 0, scratch := default) else was[k]
      {
        rings := rings[i := rings[i].(record := 0)];
        rings := rings[i := rings[i].(scratch := default)];
        i := i + 1;
      }
      assert rings == Start(old(Abs())).rings;
    }

    method RingbufferStart()
      modifies this`rings
      ensures Abs() == ClearRings(old(Abs()))
    {
      ghost var was := rings;
      var i := 0;
      while i < |rings|
        invariant i <= |rings| == |was|
        invariant forall k :: 0 <= k < |was| ==>
          rings[k] == if k < i then was[k].(stream := [], pos := 0, rptr := 0, written := 0, read := 0) else was[k]
      {
        rings := rings[i := rings[i].(stream := [], pos := 0, rptr := 0, written := 0, read := 0)];
        i := i + 1;
      }
      assert rings == ClearRings(old(Abs())).rings;
    }

    /** After a fault: the ring found on the hardware becomes current, and its work counts as done. */
    method BlameRing()
      requires Indexed(Abs())
      modifies this`rings, this`prev, this`cur
      ensures Abs() == Blame(old(Abs()))
      ensures cur == hw && prev == (if old(cur) == hw then old(prev) else Some(old(cur)))
    {
      if cur != hw {
        prev := Some(cur);
        cur := hw;
      }
      var x := rings[hw];
      rings := rings[hw := x.(consumed := x.timestamp, retired := x.timestamp)];
    }

    method Boot()
      modifies this`fault, this`reg, this`cntl, this`hw, this`ttbr0
      ensures Abs() == Booted(old(Abs()))
    {
      fault := false;
      reg, cntl, hw, ttbr0 := 0, false, cur, default;
    }

    /** Recovery (after a fault) or power-up: all rings are cleared and the GPU starts on the current one. */
    method RestartGpu(faulted: bool)
      requires Indexed(Abs())
      modifies this
      ensures Abs() == Restart(old(Abs()), faulted)
    {
      hide Blame, SetActiveNull, Start, ClearRings, Booted;
      if faulted { BlameRing(); }
      SetActiveContextsNull();
      PreemptionStart();
      RingbufferStart();
      Boot();
    }
  }

  /** A command with nothing in between is its two steps, one after the other. */
  lemma CommandIsTwoSteps(g: Gpu, r: nat, c: Ctx, front: nat, n: nat, env: Env, size: Size, detached: bool)
    requires Enabled(g, Begins(r, c, env)) && SwitchResult(g, r, c, env) == Ok && size.Valid()
    ensures var t, s := Next(g, Begins(r, c, env)), Submits(front, n, size, detached);
            Enabled(t, s) && Next(t, s) == SubmitCmd(g, r, c, front, n, env, size, detached)
  {
    hide SwitchContext, AddCmds;
  }

  lemma IdleMore(rings: seq<Ring>, i: nat)
    requires i < |rings|
    ensures AllIdle(rings[..i + 1]) == AllIdle(rings[..i]) + [Idle(rings[i])]
  {
  }

  lemma NoRefs()
    ensures ActiveRefs([]) == multiset{} && AllIdle([]) == []
  {
  }

  /** Giving back one more ring's reference. */
  lemma GiveBack(held: multiset<Ctx>, rings: seq<Ring>, i: nat)
    requires i < |rings|
    ensures held - ActiveRefs(rings[..i + 1]) ==
            if rings[i].active.Some? then held - ActiveRefs(rings[..i]) - multiset{rings[i].active.value}
            else held - ActiveRefs(rings[..i])
  {
    assert rings[..i + 1][..i] == rings[..i];
  }
}
