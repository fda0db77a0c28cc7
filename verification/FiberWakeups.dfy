// A fiber whose response has been taken is scheduled to go on, unless its name lookup timed out.
module FiberWakeups {
  import opened Wrappers
  import opened FiberTable
  import opened FiberState
  import opened FiberSpec
  import opened FiberSched
  import opened FiberFrames
  import opened FiberRuns
  import opened FiberParked

  // A fiber that waits only for its response to be taken, which has happened, is in the queue.
  ghost predicate SlotScheduled(s: State, i: nat)
    requires i < |s.tab.fibers|
  {
    var f := s.tab.fibers[i];
    f.wait.AtChunk? && f.result.None? && !f.connecting ==> i in s.toexec
  }

  ghost predicate ScheduledBut(s: State, x: int) {
    forall i: nat :: i < |s.tab.fibers| && i != x ==> SlotScheduled(s, i)
  }

  ghost predicate Scheduled(s: State) {
    ScheduledBut(s, -1)
  }

  lemma TakeChildScheduled(s: State, p: nat, k: nat)
    requires Scene(s, p) && k < |s.tab.fibers[p].children| && ScheduledBut(s, p)
    requires ChildOk(s.tab, p, s.tab.fibers[p].children[k]) && SlotOk(s.tab, s.tab.fibers[p].children[k])
    ensures ScheduledBut(TakeChild(s, p, k), p)
  {
    var s' := TakeChild(s, p, k);
    var c := s.tab.fibers[p].children[k];
    forall i: nat | i < |s'.tab.fibers| && i != p ensures SlotScheduled(s', i) {
      assert SlotScheduled(s, i);
      if i == c {
        assert s'.toexec != s.toexec ==> s'.toexec[|s.toexec|] == c;
      }
    }
  }

  lemma {:induction false} ChildIterScheduled(s: State, p: nat)
    requires Scene(s, p) && ScheduledBut(s, p)
    ensures ScheduledBut(ChildIter(s, p).0, p)
    decreases |s.tab.fibers[p].children|
  {
    SceneFacts(s, p);
    var cs := s.tab.fibers[p].children;
    if cs != [] {
      var k := FirstReady(s.tab, cs, 0);
      if k < |cs| {
        TakeChildScene(s, p, k);
        TakeChildScheduled(s, p, k);
        if s.tab.fibers[cs[k]].result.None? {
          ChildIterScheduled(TakeChild(s, p, k), p);
        }
      }
    }
  }

  // Steps that leave every record as it was, except new or other ones that wait for nothing of the kind.
  lemma SameScheduled(s: State, s': State, x: int)
    requires ScheduledBut(s, x) && (forall i :: i in s.toexec ==> i in s'.toexec)
    requires forall i: nat :: i < |s'.tab.fibers| && i != x ==>
      || !s'.tab.fibers[i].wait.AtChunk? || s'.tab.fibers[i].result.Some? || i in s'.toexec
      || (i < |s.tab.fibers| && s'.tab.fibers[i].wait == s.tab.fibers[i].wait
          && s'.tab.fibers[i].result == s.tab.fibers[i].result && s'.tab.fibers[i].connecting == s.tab.fibers[i].connecting)
    ensures ScheduledBut(s', x)
  {
    forall i: nat | i < |s'.tab.fibers| && i != x ensures SlotScheduled(s', i) {
      if i < |s.tab.fibers| {
        assert SlotScheduled(s, i);
      }
    }
  }

  lemma SpawnScheduled(s: State, parent: Option<nat>, schedule: bool, x: int)
    requires Inv(s.tab) && ScheduledBut(s, x) && (parent.Some? ==> parent.value < |s.tab.fibers|)
    ensures ScheduledBut(SpawnFiber(s, parent, schedule), x)
  {
    NextSlotIsFree(s.tab);
    SameScheduled(s, SpawnFiber(s, parent, schedule), x);
  }

  lemma ResolveScheduled(s: State, parent: Option<nat>, armed: bool, timeout: nat, ok: bool, x: int)
    requires Inv(s.tab) && ScheduledBut(s, x)
    requires parent.Some? ==> parent.value < |s.tab.fibers| && parent.value != NextSlot(s.tab)
    ensures ScheduledBut(ResolveFiber(s, parent, armed, timeout, ok), x)
  {
    NextSlotIsFree(s.tab);
    SameScheduled(s, ResolveFiber(s, parent, armed, timeout, ok), x);
  }

  lemma OpScheduled(s: State, pos: nat, op: Op)
    requires Scene(s, pos) && ScheduledBut(s, pos)
    ensures ScheduledBut(OpState(s, pos, op), pos)
  {
    AliveIsNotNext(s.tab, pos);
    match op {
      case Spawn(child, schedule) => SpawnScheduled(s, ParentFor(child, pos), schedule, pos);
      case Resolve(child, armed, timeout, ok) => ResolveScheduled(s, ParentFor(child, pos), armed, timeout, ok, pos);
      case GetChild => ChildIterScheduled(s, pos);
      case RefusedListener => SameScheduled(s, Refuse(s), pos);
    }
  }

  lemma {:induction false} RunOpsScheduled(s: State, pos: nat, ops: seq<Op>)
    requires Scene(s, pos) && ScheduledBut(s, pos)
    ensures ScheduledBut(RunOps(s, pos, ops).0, pos)
    decreases |ops|
  {
    if ops != [] {
      RunOpsUnfolds(s, pos, ops);
      OpScheduled(s, pos, ops[0]);
      hide RunOps, Scene, OpState, WaitsAtOp, ScheduledBut;
      if !WaitsAtOp(s, pos, ops[0]) {
        RunOpsScheduled(OpState(s, pos, ops[0]), pos, ops[1..]);
      }
    }
  }

  lemma EndBurstScheduled(s: State, pos: nat, end: Yield)
    requires Scene(s, pos) && ScheduledBut(s, pos) && EndBurst(s, pos, end).Some?
    ensures Scheduled(EndBurst(s, pos, end).value)
  {
    SceneFacts(s, pos);
    var s' := EndBurst(s, pos, end).value;
    forall i: nat | i < |s'.tab.fibers| && i != -1 ensures SlotScheduled(s', i) {
      if i != pos {
        assert SlotScheduled(s, i);
      }
    }
  }

  lemma WakeUpScheduled(s: State, pos: nat)
    requires pos < |s.tab.fibers| && ScheduledBut(s, pos)
    ensures ScheduledBut(WakeUp(s, pos), pos)
  {
    SameScheduled(s, WakeUp(s, pos), pos);
  }

  // A switch into a fiber uses up its queue entry; when it gives up control, all are scheduled again.
  lemma BodyScheduled(s: State, pos: nat, burst: Burst)
    requires CanStep(s, pos) && s.tab.fibers[pos].func && ScheduledBut(s, pos) && Body(s, pos, burst).Some?
    ensures Scheduled(Body(s, pos, burst).value)
  {
    WakeUpScene(s, pos);
    WakeUpScheduled(s, pos);
    var s0 := WakeUp(s, pos);
    hide CanStep, Scene, WakeUp, ChildIter, RunOps, EndBurst, ScheduledBut, Scheduled;
    if s.tab.fibers[pos].wait.AtChildIter? {
      ChildIterScheduled(s0, pos);
    }
    var (s1, waits) := if s.tab.fibers[pos].wait.AtChildIter? then var (a, r) := ChildIter(s0, pos); (a, r.Block?) else (s0, false);
    if waits {
      MarkScheduled(s1, pos);
    } else {
      RunOpsScheduled(s1, pos, burst.ops);
      var (s2, waits2) := RunOps(s1, pos, burst.ops);
      if waits2 {
        MarkScheduled(s2, pos);
      } else {
        EndBurstScheduled(s2, pos, burst.end);
      }
    }
  }

  lemma MarkScheduled(s: State, pos: nat)
    requires Scene(s, pos) && ScheduledBut(s, pos)
    ensures Scheduled(Mark(s, pos, AtChildIter))
  {
    var s' := Mark(s, pos, AtChildIter);
    forall i: nat | i < |s'.tab.fibers| && i != -1 ensures SlotScheduled(s', i) {
      if i != pos {
        assert SlotScheduled(s, i);
      }
    }
  }

  lemma {:induction false} StepScheduled(s: State, pos: nat, oracle: nat -> Burst, k: nat)
    requires CanStep(s, pos) && ScheduledBut(s, pos) && StepInto(s, pos, oracle, k).Done?
    ensures Scheduled(StepInto(s, pos, oracle, k).s)
    decreases s.tab.fibers[pos].birth, 1
  {
    if s.tab.fibers[pos].func {
      BodyScheduled(s, pos, oracle(k));
      OutScheduled(Body(s, pos, oracle(k)).value, pos, oracle, k + 1);
    } else {
      FunclessBack(s, pos);
      var s' := Close(s, pos);
      forall i: nat | i < |s'.tab.fibers| && i != -1 ensures SlotScheduled(s', i) {
        if i != pos {
          assert SlotScheduled(s, i);
        }
      }
      OutScheduled(s', pos, oracle, k + 1);
    }
  }

  lemma {:induction false} OutScheduled(s: State, pos: nat, oracle: nat -> Burst, k: nat)
    requires Back(s, pos) && Scheduled(s) && SteppedOut(s, pos, oracle, k).Done?
    ensures Scheduled(SteppedOut(s, pos, oracle, k).s)
    decreases s.tab.fibers[pos].birth, 0
  {
    CleanStackBack(s, pos);
    var s1 := CleanStack(s, pos);
    SameScheduled(s, s1, -1);
    var f := s1.tab.fibers[pos];
    hide Good, Quiet, CanStep, Retire, Republish, SlotScheduled;
    if f.parent.Some? {
      ParentCanStep(s1, pos);
      if f.state.Closed? || f.result.Some? {
        assert ScheduledBut(s1, f.parent.value);
        StepScheduled(s1, f.parent.value, oracle, k);
      }
    } else if f.state.Closed? {
      RetireQuiet(s1, pos);
      RetireScheduled(s1, pos);
    } else {
      RepublishQuiet(s1, pos);
      if f.result.Some? {
        RepublishScheduled(s1, pos);
      }
    }
  }

  lemma RetireScheduled(s: State, pos: nat)
    requires Back(s, pos) && Scheduled(s) && s.tab.fibers[pos].birth < s.tab.births && s.tab.fibers[pos].state.Closed?
    ensures Scheduled(Retire(s, pos))
  {
    assert SlotOk(s.tab, pos);
    PublishShape(s, pos);
    hide Good, QuietBut, Publish, Scheduled;
    PutScheduled(s, pos, s.tab.fibers[pos].(result := None), Retire(s, pos));
  }

  lemma PutScheduled(s: State, pos: nat, f: Fiber, s': State)
    requires Scheduled(s) && pos < |s.tab.fibers| && s'.tab.fibers == s.tab.fibers[pos := f]
    requires (forall i :: i in s.toexec ==> i in s'.toexec) && (!f.wait.AtChunk? || pos in s'.toexec)
    ensures Scheduled(s')
  {
    SameScheduled(s, s', -1);
  }

  lemma RepublishScheduled(s: State, pos: nat)
    requires Good(s) && pos < |s.tab.fibers| && s.tab.fibers[pos].birth < s.tab.births && Scheduled(s)
    ensures Scheduled(Republish(s, pos))
  {
    PublishShape(s, pos);
    hide Good, Publish, Scheduled;
    PutScheduled(s, pos, s.tab.fibers[pos].(result := None), Republish(s, pos));
  }

  // ---------- runs ----------

  lemma PopScheduled(s: State)
    requires Scheduled(s) && s.toexec != [] && s.toexec[0] < |s.tab.fibers|
    ensures ScheduledBut(Pop(s), s.toexec[0])
    ensures s.tab.fibers[s.toexec[0]].connecting ==> Scheduled(Pop(s))
  {
    assert s.toexec == [s.toexec[0]] + s.toexec[1..];
    forall i: nat | i < |s.tab.fibers| && (i != s.toexec[0] || s.tab.fibers[i].connecting) ensures SlotScheduled(Pop(s), i) {
      assert SlotScheduled(s, i);
    }
  }

  lemma ExecScheduled(s: State, reply: Reply, oracle: nat -> Burst)
    requires Settled(s) && Allowed(s, Exec(reply)) && Scheduled(s) && ExecNext(s, reply, oracle).Done?
    ensures Scheduled(ExecNext(s, reply, oracle).s)
  {
    var pos := s.toexec[0];
    PopScheduled(s);
    QueuesDoNotMatter(s, Pop(s));
    if !s.tab.fibers[pos].connecting {
      StepScheduled(Pop(s), pos, oracle, 0);
    } else if reply.Address? {
      AddressScheduled(s, reply);
      if !reply.registered {
        StepScheduled(HaveAddress(Pop(s), pos), pos, oracle, 0);
      }
    }
    hide Settled, Allowed, Scheduled, ScheduledBut, StepInto;
  }

  lemma AddressScheduled(s: State, reply: Reply)
    requires Settled(s) && Allowed(s, Exec(reply)) && reply.Address? && s.tab.fibers[s.toexec[0]].connecting
    requires Scheduled(Pop(s))
    ensures var pos := s.toexec[0];
            var s' := HaveAddress(Pop(s), pos);
            CanStep(s', pos) && Scheduled(s') && ScheduledBut(s', pos)
  {
    AddressCanStep(s, reply);
    SameScheduled(Pop(s), HaveAddress(Pop(s), s.toexec[0]), -1);
  }

  lemma TimeoutScheduled(s: State, pos: nat, rearmed: bool, oracle: nat -> Burst)
    requires Settled(s) && Allowed(s, TimedOut(pos, rearmed)) && Scheduled(s) && TimeoutStep(s, pos, rearmed, oracle).Done?
    ensures Scheduled(TimeoutStep(s, pos, rearmed, oracle).s)
  {
    var f := s.tab.fibers[pos];
    if f.wtoken {
      TimeoutSettled(s, pos, rearmed);
      var s' := Put(s, pos, AfterTimeout(f, rearmed));
      SameScheduled(s, s', -1);
      if !(f.connecting && f.timedOut > 1) {
        assert ScheduledBut(s', pos);
        StepScheduled(s', pos, oracle, 0);
      }
    }
  }

  lemma EventScheduled(s: State, e: Event, oracle: nat -> Burst)
    requires Settled(s) && Allowed(s, e) && Scheduled(s) && Step(s, e, oracle).Done?
    ensures Scheduled(Step(s, e, oracle).s)
  {
    match e {
      case NewFiberEvent => SpawnScheduled(s, None, true, -1);
      case NewResponseTimer(resp, armed) => TimersScheduled(s, resp, armed);
      case NewFiberTimer(armed) => TimersScheduled(s, 0, armed);
      case NewResolve(armed, timeout, ok) => ResolveScheduled(s, None, armed, timeout, ok, -1);
      case DropTimer(pos) => CancelScheduled(s, pos);
      case Exec(reply) => ExecScheduled(s, reply, oracle);
      case TimedOut(pos, rearmed) => TimeoutScheduled(s, pos, rearmed, oracle);
      case ResumeFiber(pos, answer) => AnswerScheduled(s, pos, answer);
      case RefusedListenerEvent => SameScheduled(s, Refuse(s), -1);
      case Signal(pos) => SameScheduled(s, s.(toexec := s.toexec + [pos]), -1);
      case PopResponse => SameScheduled(s, Fetch(s), -1);
    }
    hide Settled, Scheduled, ExecNext, TimeoutStep;
  }

  lemma TimersScheduled(s: State, resp: Resp, armed: bool)
    requires Settled(s) && Scheduled(s)
    ensures Scheduled(ResponseTimer(s, resp, armed)) && Scheduled(FiberTimer(s, armed))
  {
    NextSlotIsFree(s.tab);
    SameScheduled(s, ResponseTimer(s, resp, armed), -1);
    SameScheduled(s, FiberTimer(s, armed), -1);
  }

  lemma CancelScheduled(s: State, pos: nat)
    requires Settled(s) && Allowed(s, DropTimer(pos)) && Scheduled(s)
    ensures Scheduled(CancelTimer(s, pos))
  {
    SameScheduled(s, CancelTimer(s, pos), -1);
  }

  lemma AnswerScheduled(s: State, pos: nat, answer: Option<Resp>)
    requires pos < |s.tab.fibers| && Scheduled(s)
    ensures Scheduled(Answer(s, pos, answer))
  {
    SameScheduled(s, Answer(s, pos, answer), -1);
  }

  // Main result: after every disciplined run, a fiber whose response has been taken is in the queue to
  // be resumed, unless it still counts as waiting for a lookup.
  lemma {:induction false} EveryRunSchedules(events: seq<Event>, s: State)
    requires Reaches(events, s)
    ensures Scheduled(s)
    decreases |events|
  {
    if events != [] {
      var last := |events| - 1;
      var p: State, oracle: nat -> Burst, next: nat :|
        RunFrom(Start(), events[..last], p) && Leads(p, events[last], oracle, s, next);
      EveryRunSchedules(events[..last], p);
      EventScheduled(p, events[last], oracle);
    }
  }

  // ---------- the exception ----------

  // The queue entry of a fiber that has started switches into it exactly when it does not count as
  // waiting for a lookup; otherwise the entry is swallowed, and nothing else happens.
  lemma EntryResumesIff(s: State, reply: Reply, oracle: nat -> Burst)
    requires Settled(s) && Allowed(s, Exec(reply)) && !s.tab.fibers[s.toexec[0]].wait.NotStarted?
    ensures Step(s, Exec(reply), oracle) == Done(Pop(s), 0) <==> s.tab.fibers[s.toexec[0]].connecting
    ensures !s.tab.fibers[s.toexec[0]].connecting ==>
      && CanStep(Pop(s), s.toexec[0])
      && Step(s, Exec(reply), oracle) == StepInto(Pop(s), s.toexec[0], oracle, 0)
  {
    var pos := s.toexec[0];
    QueuesDoNotMatter(s, Pop(s));
    if !s.tab.fibers[pos].connecting {
      StepUsesBursts(Pop(s), pos, oracle, 0);
    }
  }

  function SendOnce(k: nat): Burst {
    Burst([], Chunk(5))
  }

  // A lookup that has timed out starts the fiber but leaves it marked as waiting for the lookup. When
  // it sends a response it is queued, but taking it from the queue does not resume it: the run ends
  // with the response taken, the queue empty and the fiber suspended.
  lemma TimedOutLookupCanStrand() returns (events: seq<Event>, s: State)
    ensures Reaches(events, s) && events == [NewResolve(true, 1, true)] + [TimedOut(0, false)] + [Exec(NoAddress)]
    ensures |s.tab.fibers| == 1 && s.tab.fibers[0].wait.AtChunk? && s.tab.fibers[0].result.None? && s.toexec == []
    ensures Stranded(s, 0)
    ensures s.results == [5]
  {
    hide Reaches, Step, Settled, Allowed;
    var s1 := LookupStarts();
    var s2 := LookupTimesOut(s1);
    Extend([NewResolve(true, 1, true)], s1, TimedOut(0, false), SendOnce, s2, 1);
    s := EntryIsSwallowed(s2);
    Extend([NewResolve(true, 1, true)] + [TimedOut(0, false)], s2, Exec(NoAddress), SendOnce, s, 0);
    events := [NewResolve(true, 1, true)] + [TimedOut(0, false)] + [Exec(NoAddress)];
  }

  lemma LookupStarts() returns (s: State)
    ensures Reaches([NewResolve(true, 1, true)], s) && Settled(s) && s.toexec == [] && s.results == []
    ensures s.tab.fibers == [NewFiber(true, true, None, 0).(wtoken := true, timedOut := 1, connecting := true)]
  {
    StartSettled();
    var s0 := Start();
    s := Step(s0, NewResolve(true, 1, true), SendOnce).s;
    Extend([], s0, NewResolve(true, 1, true), SendOnce, s, 0);
    assert [] + [NewResolve(true, 1, true)] == [NewResolve(true, 1, true)];
  }

  lemma EntryIsSwallowed(s: State) returns (s': State)
    requires Settled(s) && |s.tab.fibers| == 1 && s.toexec == [0] && s.tab.fibers[0].wait.AtChunk? && s.tab.fibers[0].connecting
    ensures Allowed(s, Exec(NoAddress)) && Step(s, Exec(NoAddress), SendOnce) == Done(s', 0)
    ensures s'.tab == s.tab && s'.toexec == [] && s'.results == s.results
  {
    s' := Pop(s);
  }

  lemma LookupTimesOut(s: State) returns (s': State)
    requires Settled(s) && s.toexec == [] && s.results == []
    requires s.tab.fibers == [NewFiber(true, true, None, 0).(wtoken := true, timedOut := 1, connecting := true)]
    ensures Allowed(s, TimedOut(0, false)) && Step(s, TimedOut(0, false), SendOnce) == Done(s', 1)
    ensures Settled(s') && |s'.tab.fibers| == 1 && s'.toexec == [0] && s'.results == [5]
    ensures var f := s'.tab.fibers[0]; f.wait.AtChunk? && f.result.None? && f.connecting && f.children == []
  {
    var s1 := LookupGivenUp(s);
    s' := SendsOnce(s1);
  }

  lemma LookupGivenUp(s: State) returns (s1: State)
    requires Settled(s) && s.toexec == [] && s.results == []
    requires s.tab.fibers == [NewFiber(true, true, None, 0).(wtoken := true, timedOut := 1, connecting := true)]
    ensures Allowed(s, TimedOut(0, false)) && CanStep(s1, 0) && s1.toexec == [] && s1.results == []
    ensures Step(s, TimedOut(0, false), SendOnce) == StepInto(s1, 0, SendOnce, 0)
    ensures s1.tab.fibers == [NewFiber(true, true, None, 0).(connecting := true)]
  {
    TimeoutSettled(s, 0, false);
    s1 := Put(s, 0, AfterTimeout(s.tab.fibers[0], false));
  }

  lemma SendsOnce(s1: State) returns (s': State)
    requires CanStep(s1, 0) && s1.toexec == [] && s1.results == []
    requires s1.tab.fibers == [NewFiber(true, true, None, 0).(connecting := true)]
    ensures StepInto(s1, 0, SendOnce, 0) == Done(s', 1)
    ensures Settled(s') && |s'.tab.fibers| == 1 && s'.toexec == [0] && s'.results == [5]
    ensures var f := s'.tab.fibers[0]; f.wait.AtChunk? && f.result.None? && f.connecting && f.children == []
  {
    WakeUpScene(s1, 0);
    var s2 := WakeUp(s1, 0);
    assert RunOps(s2, 0, []) == (s2, false);
    var s3 := EndBurst(s2, 0, Chunk(5)).value;
    assert Body(s1, 0, SendOnce(0)) == Some(s3);
    CleanStackBack(s3, 0);
    RepublishQuiet(s3, 0);
    s' := Republish(s3, 0);
    assert SteppedOut(s3, 0, SendOnce, 1) == Done(s', 1);
  }
}
