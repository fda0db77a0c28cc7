// Slots that nothing uses any more: a fiber stranded in a lookup that was given up, a slot that leaked,
// and a timer that could not be armed. Each stays as it is through every disciplined continuation.
module FiberParked {
  import opened Wrappers
  import opened FiberTable
  import opened FiberState
  import opened FiberSpec
  import opened FiberSched
  import opened FiberFrames
  import opened FiberRuns

  // A started fiber without children that counts as waiting for a lookup.
  ghost predicate Stranded(s: State, x: nat) {
    && Alive(s.tab, x) && s.tab.fibers[x].connecting && s.tab.fibers[x].children == []
    && !s.tab.fibers[x].wait.NotStarted? && !s.tab.fibers[x].wait.Running?
  }

  // A slot without a fiber that is not on the free list: taken for a listener that was refused, or for
  // a lookup that failed without a timer.
  ghost predicate Leaked(s: State, x: nat) {
    && x < |s.tab.fibers| && s.tab.fibers[x].wait.Dead? && !s.tab.fibers[x].wtoken
    && x !in s.tab.free && (x in s.tab.lost || s.tab.fibers[x].parent.None?)
  }

  // A fiber that was registered to be started by a timer, but has none, and that no entry names.
  ghost predicate Idle(s: State, x: nat) {
    && x < |s.tab.fibers| && s.tab.fibers[x].wait.NotStarted? && s.tab.fibers[x].parent.None?
    && !s.tab.fibers[x].wtoken && !s.tab.fibers[x].connecting && x !in s.toexec
  }

  ghost predicate Parked(s: State, x: nat) {
    Stranded(s, x) || Leaked(s, x) || Idle(s, x)
  }

  // It is the same fiber or slot, parked in the same way.
  ghost predicate StillParked(s: State, s': State, x: nat) {
    && x < |s.tab.fibers| && x < |s'.tab.fibers|
    && (Stranded(s, x) ==> Stranded(s', x)) && (Leaked(s, x) ==> Leaked(s', x)) && (Idle(s, x) ==> Idle(s', x))
    && s'.tab.fibers[x].birth == s.tab.fibers[x].birth && s'.tab.fibers[x].wait == s.tab.fibers[x].wait
  }

  // A signal or a resumption for slot x. A slot that never had a socket gets no signal, and one that
  // was never handed to the main stack is not resumed.
  predicate Names(e: Event, x: nat) {
    (e.Signal? || e.ResumeFiber?) && e.pos == x
  }

  lemma KeptParked(s: State, s': State, pos: nat, x: nat)
    requires OthersKept(s, s', pos) && Parked(s, x) && x != pos
    ensures StillParked(s, s', x)
  {
    assert SlotKept(s, s', x, pos);
  }

  lemma {:induction false} StepParked(s: State, pos: nat, oracle: nat -> Burst, k: nat, x: nat)
    requires CanStep(s, pos) && Parked(s, x) && x != pos && StepInto(s, pos, oracle, k).Done?
    ensures StillParked(s, StepInto(s, pos, oracle, k).s, x)
    decreases s.tab.fibers[pos].birth, 1
  {
    if s.tab.fibers[pos].func {
      var s1 := Body(s, pos, oracle(k)).value;
      BodyFrame(s, pos, oracle(k));
      KeptParked(s, s1, pos, x);
      OutParked(s1, pos, oracle, k + 1, x);
    } else {
      FunclessBack(s, pos);
      CloseFrame(s, pos);
      KeptParked(s, Close(s, pos), pos, x);
      OutParked(Close(s, pos), pos, oracle, k + 1, x);
    }
  }

  lemma {:induction false} OutParked(s: State, pos: nat, oracle: nat -> Burst, k: nat, x: nat)
    requires Back(s, pos) && Parked(s, x) && x != pos && SteppedOut(s, pos, oracle, k).Done?
    ensures StillParked(s, SteppedOut(s, pos, oracle, k).s, x)
    decreases s.tab.fibers[pos].birth, 0
  {
    CleanStackBack(s, pos);
    CleanStackFrame(s, pos);
    var s1 := CleanStack(s, pos);
    KeptParked(s, s1, pos, x);
    var f := s1.tab.fibers[pos];
    if f.parent.Some? {
      ParentCanStep(s1, pos);
      if f.state.Closed? || f.result.Some? {
        assert SlotOk(s1.tab, pos) && ParentOk(s1.tab, pos, f.parent.value) && SlotOk(s1.tab, f.parent.value);
        StepParked(s1, f.parent.value, oracle, k, x);
      }
    } else if f.state.Closed? {
      RetireQuiet(s1, pos);
      RetireFrame(s1, pos);
      KeptParked(s1, Retire(s1, pos), pos, x);
    } else {
      RepublishQuiet(s1, pos);
      RetireFrame(s1, pos);
      if f.result.Some? {
        KeptParked(s1, Republish(s1, pos), pos, x);
      }
    }
  }

  lemma EventParked(s: State, e: Event, oracle: nat -> Burst, x: nat)
    requires Settled(s) && Allowed(s, e) && Parked(s, x) && Step(s, e, oracle).Done? && (Idle(s, x) ==> !Names(e, x))
    ensures StillParked(s, Step(s, e, oracle).s, x)
  {
    match e {
      case NewFiberEvent => SpawnParked(s, x);
      case RefusedListenerEvent => RefuseParked(s, x);
      case NewResponseTimer(resp, armed) => TimerParked(s, resp, armed, x);
      case NewFiberTimer(armed) => TimerParked(s, 0, armed, x);
      case NewResolve(armed, timeout, ok) => ResolveParked(s, armed, timeout, ok, x);
      case DropTimer(pos) => CancelParked(s, pos, x);
      case Exec(reply) => ExecParked(s, reply, oracle, x);
      case TimedOut(pos, rearmed) => TimeoutParked(s, pos, rearmed, oracle, x);
      case _ =>
    }
  }

  lemma SpawnParked(s: State, x: nat)
    requires Inv(s.tab) && Parked(s, x)
    ensures StillParked(s, SpawnFiber(s, None, true), x)
  {
    SpawnFrame(s, None, true, |s.tab.fibers|);
    KeptParked(s, SpawnFiber(s, None, true), |s.tab.fibers|, x);
  }

  lemma RefuseParked(s: State, x: nat)
    requires Inv(s.tab) && Parked(s, x)
    ensures StillParked(s, Refuse(s), x)
  {
    RefuseFrame(s, |s.tab.fibers|);
    KeptParked(s, Refuse(s), |s.tab.fibers|, x);
  }

  lemma ResolveParked(s: State, armed: bool, timeout: nat, ok: bool, x: nat)
    requires Inv(s.tab) && Parked(s, x)
    ensures StillParked(s, ResolveFiber(s, None, armed, timeout, ok), x)
  {
    ResolveFrame(s, None, armed, timeout, ok, |s.tab.fibers|);
    KeptParked(s, ResolveFiber(s, None, armed, timeout, ok), |s.tab.fibers|, x);
  }

  lemma TimerParked(s: State, resp: Resp, armed: bool, x: nat)
    requires Settled(s) && Parked(s, x)
    ensures StillParked(s, ResponseTimer(s, resp, armed), x)
    ensures StillParked(s, FiberTimer(s, armed), x)
  {
    SteadyIsNotNext(s.tab, x);
  }

  lemma CancelParked(s: State, pos: nat, x: nat)
    requires Settled(s) && Allowed(s, DropTimer(pos)) && Parked(s, x)
    ensures StillParked(s, CancelTimer(s, pos), x)
  {
    assert SlotOk(s.tab, x);
  }

  lemma ExecParked(s: State, reply: Reply, oracle: nat -> Burst, x: nat)
    requires Settled(s) && Allowed(s, Exec(reply)) && Parked(s, x) && ExecNext(s, reply, oracle).Done?
    ensures StillParked(s, ExecNext(s, reply, oracle).s, x)
  {
    var pos := s.toexec[0];
    QueuesDoNotMatter(s, Pop(s));
    if !s.tab.fibers[pos].connecting {
      StepParked(Pop(s), pos, oracle, 0, x);
    } else if reply.Address? {
      AddressCanStep(s, reply);
      if !reply.registered {
        StepParked(HaveAddress(Pop(s), pos), pos, oracle, 0, x);
      }
    }
    hide Settled, StepInto, CanStep;
  }

  lemma TimeoutParked(s: State, pos: nat, rearmed: bool, oracle: nat -> Burst, x: nat)
    requires Settled(s) && Allowed(s, TimedOut(pos, rearmed)) && Parked(s, x) && TimeoutStep(s, pos, rearmed, oracle).Done?
    ensures StillParked(s, TimeoutStep(s, pos, rearmed, oracle).s, x)
  {
    assert SlotOk(s.tab, x);
    var f := s.tab.fibers[pos];
    if f.wtoken {
      TimeoutSettled(s, pos, rearmed);
      if !(f.connecting && f.timedOut > 1) {
        StepParked(Put(s, pos, AfterTimeout(f, rearmed)), pos, oracle, 0, x);
      }
    }
  }

  // Main result: whatever happens afterwards, a stranded fiber stays suspended where it is, a leaked slot
  // is never used again, and a fiber without its timer is not started unless an event names its slot.
  lemma {:induction false} ParkedForEver(s: State, events: seq<Event>, s': State, x: nat)
    requires Settled(s) && Parked(s, x) && RunFrom(s, events, s')
    requires Idle(s, x) ==> forall e :: e in events ==> !Names(e, x)
    ensures StillParked(s, s', x)
    decreases |events|
  {
    if events != [] {
      var last := |events| - 1;
      var p: State, oracle: nat -> Burst, next: nat :|
        RunFrom(s, events[..last], p) && Leads(p, events[last], oracle, s', next);
      ParkedForEver(s, events[..last], p, x);
      KindKept(s, p, x);
      EventParked(p, events[last], oracle, x);
    }
  }

  // The three kinds exclude each other.
  lemma KindKept(s: State, p: State, x: nat)
    requires Parked(s, x) && StillParked(s, p, x)
    ensures Parked(p, x) && (Idle(p, x) ==> Idle(s, x))
  {
  }
}
