// Runs in which no response is lost: exactly those in which no fiber sends, or returns, while an
// earlier response of its own is still pending, and no timer is cancelled that holds one.
module FiberDelivery {
  import opened Wrappers
  import opened FiberTable
  import opened FiberState
  import opened FiberSpec
  import opened FiberSched
  import opened FiberFrames
  import opened FiberRuns

  ghost predicate NoDrops(s: State) {
    forall b :: 0 <= b < |s.log.dropped| ==> s.log.dropped[b] == 0
  }

  // What a fiber does before it gives up control neither drops a response nor touches its own.
  ghost predicate Careful(s: State, s': State, pos: nat) {
    && pos < |s.tab.fibers| && pos < |s'.tab.fibers|
    && (NoDrops(s) <==> NoDrops(s')) && s'.tab.fibers[pos].result == s.tab.fibers[pos].result
  }

  lemma {:induction false} ChildIterCareful(s: State, p: nat)
    requires Scene(s, p)
    ensures Careful(s, ChildIter(s, p).0, p)
    decreases |s.tab.fibers[p].children|
  {
    SceneFacts(s, p);
    var cs := s.tab.fibers[p].children;
    if cs != [] {
      var k := FirstReady(s.tab, cs, 0);
      if k < |cs| {
        assert cs[k] in cs;
        TakeChildScene(s, p, k);
        if s.tab.fibers[cs[k]].result.None? {
          ChildIterCareful(TakeChild(s, p, k), p);
        }
      }
    }
  }

  lemma EnrollCareful(s: State, pos: nat, parent: Option<nat>)
    requires Inv(s.tab) && pos < |s.tab.fibers| && pos != NextSlot(s.tab) && (parent.Some? ==> parent.value < |s.tab.fibers|)
    ensures Careful(s, Enroll(s, true, true, parent), pos)
  {
    EnrollDrops(s, true, true, parent);
  }

  lemma ResolveCareful(s: State, pos: nat, parent: Option<nat>, armed: bool, timeout: nat, ok: bool)
    requires Inv(s.tab) && pos < |s.tab.fibers| && pos != NextSlot(s.tab)
    requires parent.Some? ==> parent.value < |s.tab.fibers| && parent.value != NextSlot(s.tab)
    ensures Careful(s, ResolveFiber(s, parent, armed, timeout, ok), pos)
  {
    EnrollCareful(s, pos, parent);
  }

  lemma OpCareful(s: State, pos: nat, op: Op)
    requires Scene(s, pos)
    ensures Careful(s, OpState(s, pos, op), pos)
  {
    AliveIsNotNext(s.tab, pos);
    match op {
      case Spawn(child, schedule) => EnrollCareful(s, pos, ParentFor(child, pos));
      case Resolve(child, armed, timeout, ok) => ResolveCareful(s, pos, ParentFor(child, pos), armed, timeout, ok);
      case GetChild => ChildIterCareful(s, pos);
      case RefusedListener =>
    }
  }

  lemma {:induction false} RunOpsCareful(s: State, pos: nat, ops: seq<Op>)
    requires Scene(s, pos)
    ensures Careful(s, RunOps(s, pos, ops).0, pos)
    decreases |ops|
  {
    if ops != [] {
      RunOpsUnfolds(s, pos, ops);
      OpCareful(s, pos, ops[0]);
      hide RunOps, Scene, OpState, WaitsAtOp, NoDrops;
      if !WaitsAtOp(s, pos, ops[0]) {
        RunOpsCareful(OpState(s, pos, ops[0]), pos, ops[1..]);
      }
    }
  }

  // Giving up control loses a response exactly when the fiber sends, or returns, while an earlier
  // response of its own is still pending; and then it is that one.
  lemma LossIffPending(s: State, pos: nat, end: Yield)
    requires Scene(s, pos) && EndBurst(s, pos, end).Some?
    ensures var f := s.tab.fibers[pos];
            var before, after := s.log.dropped, EndBurst(s, pos, end).value.log.dropped;
            && f.birth < |before|
            && after == before[f.birth := before[f.birth] + if end.Chunk? || end.Return? then |Pending(f.result)| else 0]
  {
    SceneFacts(s, pos);
  }

  lemma EndBurstDrops(s: State, pos: nat, end: Yield)
    requires Scene(s, pos) && EndBurst(s, pos, end).Some?
    ensures NoDrops(EndBurst(s, pos, end).value) <==>
            NoDrops(s) && !((end.Chunk? || end.Return?) && s.tab.fibers[pos].result.Some?)
  {
    LossIffPending(s, pos, end);
    var f := s.tab.fibers[pos];
    hide Scene, EndBurst;
    DropsAfterSend(s.log.dropped, f.birth, if end.Chunk? || end.Return? then |Pending(f.result)| else 0,
                   EndBurst(s, pos, end).value.log.dropped);
  }

  lemma DropsAfterSend(before: seq<nat>, b: nat, more: nat, after: seq<nat>)
    requires b < |before| && after == before[b := before[b] + more]
    ensures (forall i :: 0 <= i < |after| ==> after[i] == 0) <==> (forall i :: 0 <= i < |before| ==> before[i] == 0) && more == 0
  {
    if forall i :: 0 <= i < |after| ==> after[i] == 0 {
      assert after[b] == before[b] + more;
      forall i | 0 <= i < |before| ensures before[i] == 0 {
        assert i != b ==> after[i] == before[i];
      }
    }
  }

  lemma WakeUpCareful(s: State, pos: nat)
    requires CanStep(s, pos) && s.tab.fibers[pos].func
    ensures var s0 := WakeUp(s, pos);
            && pos < |s0.tab.fibers| && (NoDrops(s0) <==> NoDrops(s))
            && s0.tab.fibers[pos].result == if s.tab.fibers[pos].wait.AtJoin? then None else s.tab.fibers[pos].result
  {
  }

  // The fiber sends, or returns, while an earlier response of its own is pending.
  ghost predicate Overwrites(s: State, pos: nat, burst: Burst)
    requires CanStep(s, pos) && s.tab.fibers[pos].func
  {
    && s.tab.fibers[pos].result.Some? && !s.tab.fibers[pos].wait.AtJoin?
    && !UpToEnd(s, pos, burst).1 && (burst.end.Chunk? || burst.end.Return?)
  }

  lemma UpToEndCareful(s: State, pos: nat, burst: Burst)
    requires CanStep(s, pos) && s.tab.fibers[pos].func
    ensures var s2 := UpToEnd(s, pos, burst).0;
            && pos < |s2.tab.fibers| && (NoDrops(s2) <==> NoDrops(s))
            && s2.tab.fibers[pos].result == if s.tab.fibers[pos].wait.AtJoin? then None else s.tab.fibers[pos].result
  {
    WakeUpScene(s, pos);
    WakeUpCareful(s, pos);
    var s0 := WakeUp(s, pos);
    hide CanStep, Scene, WakeUp, ChildIter, RunOps, NoDrops;
    if s.tab.fibers[pos].wait.AtChildIter? {
      ChildIterCareful(s0, pos);
    }
    var (s1, waits) := if s.tab.fibers[pos].wait.AtChildIter? then var (a, r) := ChildIter(s0, pos); (a, r.Block?) else (s0, false);
    if !waits {
      RunOpsCareful(s1, pos, burst.ops);
    }
  }

  // A fiber that has given up control has lost a response exactly when it overwrote one.
  lemma BodyDropsIff(s: State, pos: nat, burst: Burst)
    requires CanStep(s, pos) && s.tab.fibers[pos].func && Body(s, pos, burst).Some?
    ensures NoDrops(Body(s, pos, burst).value) <==> NoDrops(s) && !Overwrites(s, pos, burst)
  {
    UpToEndCareful(s, pos, burst);
    BodyUnfolds(s, pos, burst);
    var (s2, waits) := UpToEnd(s, pos, burst);
    if !waits {
      EndBurstDrops(s2, pos, burst.end);
    } else {
      MarkKeepsLog(s2, pos);
    }
    hide CanStep, Scene, Body, UpToEnd, EndBurst, NoDrops;
  }

  lemma MarkKeepsLog(s: State, pos: nat)
    requires pos < |s.tab.fibers|
    ensures NoDrops(Mark(s, pos, AtChildIter)) <==> NoDrops(s)
  {
  }

  // Whether a switch into `pos`, or one of the switches it leads to, overwrites a pending response.
  ghost predicate MeetsPending(s: State, pos: nat, oracle: nat -> Burst, k: nat)
    requires CanStep(s, pos)
    decreases s.tab.fibers[pos].birth, 1
  {
    if s.tab.fibers[pos].func then
      || Overwrites(s, pos, oracle(k))
      || (var after := Body(s, pos, oracle(k)); after.Some? && LeadsToPending(after.value, pos, oracle, k + 1))
    else
      FunclessBack(s, pos);
      LeadsToPending(Close(s, pos), pos, oracle, k + 1)
  }

  ghost predicate LeadsToPending(s: State, pos: nat, oracle: nat -> Burst, k: nat)
    requires Back(s, pos)
    decreases s.tab.fibers[pos].birth, 0
  {
    CleanStackBack(s, pos);
    var s1 := CleanStack(s, pos);
    var f := s1.tab.fibers[pos];
    && f.parent.Some? && (f.state.Closed? || f.result.Some?)
    && (ParentCanStep(s1, pos); MeetsPending(s1, f.parent.value, oracle, k))
  }

  lemma {:induction false} StepDropsIff(s: State, pos: nat, oracle: nat -> Burst, k: nat)
    requires CanStep(s, pos) && StepInto(s, pos, oracle, k).Done?
    ensures NoDrops(StepInto(s, pos, oracle, k).s) <==> NoDrops(s) && !MeetsPending(s, pos, oracle, k)
    decreases s.tab.fibers[pos].birth, 1
  {
    if s.tab.fibers[pos].func {
      BodyDropsIff(s, pos, oracle(k));
      hide Overwrites, NoDrops, Body;
      OutDropsIff(Body(s, pos, oracle(k)).value, pos, oracle, k + 1);
    } else {
      FunclessBack(s, pos);
      OutDropsIff(Close(s, pos), pos, oracle, k + 1);
    }
  }

  lemma {:induction false} OutDropsIff(s: State, pos: nat, oracle: nat -> Burst, k: nat)
    requires Back(s, pos) && SteppedOut(s, pos, oracle, k).Done?
    ensures NoDrops(SteppedOut(s, pos, oracle, k).s) <==> NoDrops(s) && !LeadsToPending(s, pos, oracle, k)
    decreases s.tab.fibers[pos].birth, 0
  {
    CleanStackBack(s, pos);
    var s1 := CleanStack(s, pos);
    var f := s1.tab.fibers[pos];
    assert s1.log == s.log;
    if f.parent.Some? {
      ParentCanStep(s1, pos);
      if f.state.Closed? || f.result.Some? {
        StepDropsIff(s1, f.parent.value, oracle, k);
      }
    } else if f.state.Closed? {
      RetireQuiet(s1, pos);
    } else {
      RepublishQuiet(s1, pos);
    }
  }

  // ---------- careful runs ----------

  ghost predicate CarefulStep(s: State, e: Event, oracle: nat -> Burst)
    requires Settled(s) && Allowed(s, e)
  {
    match e
    case DropTimer(pos) => s.tab.fibers[pos].wtoken ==> s.tab.fibers[pos].result.None?
    case Exec(reply) =>
      var pos := s.toexec[0];
      QueuesDoNotMatter(s, Pop(s));
      if !s.tab.fibers[pos].connecting then !MeetsPending(Pop(s), pos, oracle, 0)
      else
        reply.Address? && !reply.registered ==>
          (AddressCanStep(s, reply); !MeetsPending(HaveAddress(Pop(s), pos), pos, oracle, 0))
    case TimedOut(pos, rearmed) =>
      var f := s.tab.fibers[pos];
      f.wtoken && !(f.connecting && f.timedOut > 1) ==>
        (TimeoutSettled(s, pos, rearmed); !MeetsPending(Put(s, pos, AfterTimeout(f, rearmed)), pos, oracle, 0))
    case _ => true
  }

  // An event loses a response exactly when it is not careful.
  lemma CarefulStepIff(s: State, e: Event, oracle: nat -> Burst)
    requires Settled(s) && Allowed(s, e) && Step(s, e, oracle).Done?
    ensures NoDrops(Step(s, e, oracle).s) <==> NoDrops(s) && CarefulStep(s, e, oracle)
  {
    match e {
      case NewFiberEvent => EnrollDrops(s, true, true, None);
      case NewResponseTimer(resp, armed) => ResponseTimerDrops(s, resp, armed);
      case NewFiberTimer(armed) => EnrollDrops(s, true, true, None);
      case NewResolve(armed, timeout, ok) => ResolveDrops(s, None, armed, timeout, ok);
      case Exec(reply) => ExecDropsIff(s, reply, oracle);
      case TimedOut(pos, rearmed) => TimeoutDropsIff(s, pos, rearmed, oracle);
      case DropTimer(pos) => CancelDropsIff(s, pos);
      case _ =>
    }
  }

  lemma EnrollDrops(s: State, func: bool, param: bool, parent: Option<nat>)
    requires Inv(s.tab) && (parent.Some? ==> parent.value < |s.tab.fibers|)
    ensures NoDrops(Enroll(s, func, param, parent)) <==> NoDrops(s)
  {
    var s' := Enroll(s, func, param, parent);
    assert forall b :: 0 <= b < |s.log.dropped| ==> s'.log.dropped[b] == s.log.dropped[b];
  }

  lemma ResolveDrops(s: State, parent: Option<nat>, armed: bool, timeout: nat, ok: bool)
    requires Inv(s.tab) && (parent.Some? ==> parent.value < |s.tab.fibers| && parent.value != NextSlot(s.tab))
    ensures NoDrops(ResolveFiber(s, parent, armed, timeout, ok)) <==> NoDrops(s)
  {
    EnrollDrops(s, true, true, parent);
  }

  lemma ResponseTimerDrops(s: State, resp: Resp, armed: bool)
    requires Settled(s)
    ensures NoDrops(ResponseTimer(s, resp, armed)) <==> NoDrops(s)
  {
    EnrollDrops(s, false, false, None);
    EnrollKeepsGood(s, false, false, None);
    var s1 := Enroll(s, false, false, None);
    NextSlotIsFree(s.tab);
    DropsAfterSend(s1.log.dropped, s.tab.births, 0, ResponseTimer(s, resp, armed).log.dropped);
  }

  lemma CancelDropsIff(s: State, pos: nat)
    requires Settled(s) && Allowed(s, DropTimer(pos))
    ensures NoDrops(CancelTimer(s, pos)) <==> NoDrops(s) && (s.tab.fibers[pos].wtoken ==> s.tab.fibers[pos].result.None?)
  {
    assert SlotOk(s.tab, pos);
    if s.tab.fibers[pos].wtoken {
      DropsAfterSend(s.log.dropped, s.tab.fibers[pos].birth, |Pending(s.tab.fibers[pos].result)|, CancelTimer(s, pos).log.dropped);
    }
  }

  lemma ExecDropsIff(s: State, reply: Reply, oracle: nat -> Burst)
    requires Settled(s) && Allowed(s, Exec(reply)) && ExecNext(s, reply, oracle).Done?
    ensures NoDrops(ExecNext(s, reply, oracle).s) <==> NoDrops(s) && CarefulStep(s, Exec(reply), oracle)
  {
    var pos := s.toexec[0];
    QueuesDoNotMatter(s, Pop(s));
    if !s.tab.fibers[pos].connecting {
      StepDropsIff(Pop(s), pos, oracle, 0);
    } else if reply.Address? && !reply.registered {
      AddressCanStep(s, reply);
      StepDropsIff(HaveAddress(Pop(s), pos), pos, oracle, 0);
    }
  }

  lemma TimeoutDropsIff(s: State, pos: nat, rearmed: bool, oracle: nat -> Burst)
    requires Settled(s) && Allowed(s, TimedOut(pos, rearmed)) && TimeoutStep(s, pos, rearmed, oracle).Done?
    ensures NoDrops(TimeoutStep(s, pos, rearmed, oracle).s) <==> NoDrops(s) && CarefulStep(s, TimedOut(pos, rearmed), oracle)
  {
    var f := s.tab.fibers[pos];
    if f.wtoken {
      TimeoutSettled(s, pos, rearmed);
      if !(f.connecting && f.timedOut > 1) {
        StepDropsIff(Put(s, pos, AfterTimeout(f, rearmed)), pos, oracle, 0);
      }
    }
  }

  ghost predicate ReachesCarefully(events: seq<Event>, s: State)
    decreases |events|
  {
    if events == [] then s == Start()
    else
      var last := |events| - 1;
      exists p: State, oracle: nat -> Burst, next: nat ::
        ReachesCarefully(events[..last], p) && LeadsCarefully(p, events[last], oracle, s, next)
  }

  ghost predicate LeadsCarefully(p: State, e: Event, oracle: nat -> Burst, s: State, next: nat) {
    Leads(p, e, oracle, s, next) && CarefulStep(p, e, oracle)
  }

  lemma CarefulLeadIff(p: State, e: Event, oracle: nat -> Burst, s: State, next: nat)
    requires Leads(p, e, oracle, s, next)
    ensures NoDrops(s) <==> NoDrops(p) && LeadsCarefully(p, e, oracle, s, next)
  {
    CarefulStepIff(p, e, oracle);
  }

  lemma {:induction false} CarefulRunsDropNothing(events: seq<Event>, s: State)
    requires ReachesCarefully(events, s)
    ensures Reaches(events, s) && NoDrops(s)
    decreases |events|
  {
    if events != [] {
      var last := |events| - 1;
      var p: State, oracle: nat -> Burst, next: nat :|
        ReachesCarefully(events[..last], p) && LeadsCarefully(p, events[last], oracle, s, next);
      CarefulRunsDropNothing(events[..last], p);
      CarefulLeadIff(p, events[last], oracle, s, next);
      hide LeadsCarefully, Leads, NoDrops;
    }
  }

  lemma {:induction false} RunsWithoutDropsAreCareful(events: seq<Event>, s: State)
    requires Reaches(events, s) && NoDrops(s)
    ensures ReachesCarefully(events, s)
    decreases |events|
  {
    if events != [] {
      var last := |events| - 1;
      var p: State, oracle: nat -> Burst, next: nat :|
        RunFrom(Start(), events[..last], p) && Leads(p, events[last], oracle, s, next);
      CarefulLeadIff(p, events[last], oracle, s, next);
      hide LeadsCarefully, Leads, NoDrops;
      RunsWithoutDropsAreCareful(events[..last], p);
    }
  }

  // Main result: a run loses no response exactly when it is careful, that is, when no fiber sends or
  // returns with an earlier response of its own pending and no timer is cancelled that holds one.
  lemma CarefulIff(events: seq<Event>, s: State)
    ensures ReachesCarefully(events, s) <==> Reaches(events, s) && NoDrops(s)
  {
    if ReachesCarefully(events, s) {
      CarefulRunsDropNothing(events, s);
    }
    if Reaches(events, s) && NoDrops(s) {
      RunsWithoutDropsAreCareful(events, s);
    }
  }

  // Main result: in a careful run without join_main, every response a fiber sends is taken from it
  // once and in the order sent, except one that may still be pending; and a parentless fiber's
  // responses reach the main stack in that order.
  lemma CarefulRunsDeliver(events: seq<Event>, s: State, i: nat)
    requires ReachesCarefully(events, s) && !s.log.joined && i < |s.tab.fibers|
    ensures var f := s.tab.fibers[i];
            && f.birth < |s.log.sent| && f.birth < |s.log.got|
            && s.log.sent[f.birth] == s.log.got[f.birth] + Pending(f.result)
            && (f.parent.None? ==> From(s.log.main, f.birth) == s.log.got[f.birth])
  {
    CarefulRunsDropNothing(events, s);
    ResponsesDelivered(events, s, i);
  }

  // ---------- a condition to check without running the fibers ----------

  predicate Clear(f: Fiber) {
    f.func ==> f.result.None? || f.wait.AtJoin?
  }

  // Only fibers without children have responses of their own pending.
  ghost predicate PendingAreLeaves(s: State) {
    forall i: nat :: Alive(s.tab, i) && s.tab.fibers[i].children != [] ==> Clear(s.tab.fibers[i])
  }

  // The event itself does not name a fiber, or cancel a timer, that has a response pending.
  ghost predicate SimpleStep(s: State, e: Event)
    requires Settled(s) && Allowed(s, e)
  {
    && PendingAreLeaves(s)
    && match e
       case Exec(_) => Clear(s.tab.fibers[s.toexec[0]])
       case TimedOut(pos, _) => Clear(s.tab.fibers[pos])
       case DropTimer(pos) => s.tab.fibers[pos].wtoken ==> s.tab.fibers[pos].result.None?
       case _ => true
  }

  ghost predicate OlderKept(s0: State, s: State, birth: nat) {
    forall i: nat :: Alive(s0.tab, i) && s0.tab.fibers[i].birth < birth ==> SameSlot(s0, s, i)
  }

  ghost predicate SameSlot(s0: State, s: State, i: nat) {
    i < |s0.tab.fibers| && i < |s.tab.fibers| && s.tab.fibers[i] == s0.tab.fibers[i]
  }

  // What a fiber leaves alone includes everything older.
  lemma OlderStillKept(s0: State, s: State, s': State, pos: nat)
    requires Inv(s.tab) && pos < |s.tab.fibers| && OlderKept(s0, s, s.tab.fibers[pos].birth) && OthersKept(s, s', pos)
    ensures OlderKept(s0, s', s.tab.fibers[pos].birth)
  {
    var b := s.tab.fibers[pos].birth;
    forall i: nat | Alive(s0.tab, i) && s0.tab.fibers[i].birth < b ensures SameSlot(s0, s', i) {
      assert SameSlot(s0, s, i);
      assert SlotKept(s, s', i, pos);
      assert SlotOk(s.tab, i);
      if s.tab.fibers[i].parent.Some? {
        assert ParentOk(s.tab, i, s.tab.fibers[i].parent.value);
      }
    }
  }

  // From a fiber with nothing pending the switches lead only to its ancestors, who have children.
  lemma {:induction false} ClearStepMeetsNothing(s0: State, s: State, pos: nat, oracle: nat -> Burst, k: nat)
    requires Inv(s0.tab) && PendingAreLeaves(s0) && CanStep(s, pos) && Alive(s0.tab, pos) && Clear(s.tab.fibers[pos])
    requires s.tab.fibers[pos].parent == s0.tab.fibers[pos].parent && s.tab.fibers[pos].birth == s0.tab.fibers[pos].birth
    requires OlderKept(s0, s, s.tab.fibers[pos].birth)
    ensures !MeetsPending(s, pos, oracle, k)
    decreases s.tab.fibers[pos].birth, 1
  {
    if s.tab.fibers[pos].func {
      var after := Body(s, pos, oracle(k));
      if after.Some? {
        BodyFrame(s, pos, oracle(k));
        OlderStillKept(s0, s, after.value, pos);
        ClearOutMeetsNothing(s0, after.value, pos, oracle, k + 1);
      }
    } else {
      FunclessBack(s, pos);
      CloseFrame(s, pos);
      OlderStillKept(s0, s, Close(s, pos), pos);
      ClearOutMeetsNothing(s0, Close(s, pos), pos, oracle, k + 1);
    }
  }

  lemma {:induction false} ClearOutMeetsNothing(s0: State, s: State, pos: nat, oracle: nat -> Burst, k: nat)
    requires Inv(s0.tab) && PendingAreLeaves(s0) && Back(s, pos) && Alive(s0.tab, pos)
    requires s.tab.fibers[pos].parent == s0.tab.fibers[pos].parent && s.tab.fibers[pos].birth == s0.tab.fibers[pos].birth
    requires OlderKept(s0, s, s.tab.fibers[pos].birth)
    ensures !LeadsToPending(s, pos, oracle, k)
    decreases s.tab.fibers[pos].birth, 0
  {
    CleanStackBack(s, pos);
    CleanStackFrame(s, pos);
    var s1 := CleanStack(s, pos);
    OlderStillKept(s0, s, s1, pos);
    var f := s1.tab.fibers[pos];
    if f.parent.Some? {
      var p := f.parent.value;
      ParentCanStep(s1, pos);
      AliveIsNotNext(s0.tab, pos);
      assert SlotOk(s0.tab, pos) && ParentOk(s0.tab, pos, p) && SlotOk(s0.tab, p);
      assert SameSlot(s0, s1, p);
      ClearStepMeetsNothing(s0, s1, p, oracle, k);
    }
  }

  lemma SimpleStepIsCareful(s: State, e: Event, oracle: nat -> Burst)
    requires Settled(s) && Allowed(s, e) && SimpleStep(s, e)
    ensures CarefulStep(s, e, oracle)
  {
    match e {
      case Exec(reply) => SimpleExecIsCareful(s, reply, oracle);
      case TimedOut(pos, rearmed) => SimpleTimeoutIsCareful(s, pos, rearmed, oracle);
      case _ =>
    }
  }

  lemma SimpleExecIsCareful(s: State, reply: Reply, oracle: nat -> Burst)
    requires Settled(s) && Allowed(s, Exec(reply)) && SimpleStep(s, Exec(reply))
    ensures CarefulStep(s, Exec(reply), oracle)
  {
    var pos := s.toexec[0];
    QueuesDoNotMatter(s, Pop(s));
    if !s.tab.fibers[pos].connecting {
      assert OlderKept(s, Pop(s), s.tab.fibers[pos].birth);
      ClearStepMeetsNothing(s, Pop(s), pos, oracle, 0);
    } else if reply.Address? && !reply.registered {
      AddressCanStep(s, reply);
      assert OlderKept(s, HaveAddress(Pop(s), pos), s.tab.fibers[pos].birth);
      ClearStepMeetsNothing(s, HaveAddress(Pop(s), pos), pos, oracle, 0);
    }
  }

  lemma SimpleTimeoutIsCareful(s: State, pos: nat, rearmed: bool, oracle: nat -> Burst)
    requires Settled(s) && Allowed(s, TimedOut(pos, rearmed)) && SimpleStep(s, TimedOut(pos, rearmed))
    ensures CarefulStep(s, TimedOut(pos, rearmed), oracle)
  {
    var f := s.tab.fibers[pos];
    if f.wtoken && !(f.connecting && f.timedOut > 1) {
      TimeoutSettled(s, pos, rearmed);
      var s' := Put(s, pos, AfterTimeout(f, rearmed));
      assert OlderKept(s, s', f.birth);
      ClearStepMeetsNothing(s, s', pos, oracle, 0);
    }
  }

  ghost predicate ReachesSimply(events: seq<Event>, s: State)
    decreases |events|
  {
    if events == [] then s == Start()
    else
      var last := |events| - 1;
      exists p: State, oracle: nat -> Burst, next: nat ::
        ReachesSimply(events[..last], p) && LeadsSimply(p, events[last], oracle, s, next)
  }

  ghost predicate LeadsSimply(p: State, e: Event, oracle: nat -> Burst, s: State, next: nat) {
    Leads(p, e, oracle, s, next) && SimpleStep(p, e)
  }

  // Main result for authors of fibers: if, between events, only fibers without children have responses
  // pending, and no event names one of those, then no response is lost.
  lemma {:induction false} SimpleRunsAreCareful(events: seq<Event>, s: State)
    requires ReachesSimply(events, s)
    ensures ReachesCarefully(events, s)
    decreases |events|
  {
    if events != [] {
      var last := |events| - 1;
      var p: State, oracle: nat -> Burst, next: nat :|
        ReachesSimply(events[..last], p) && LeadsSimply(p, events[last], oracle, s, next);
      SimpleRunsAreCareful(events[..last], p);
      SimpleStepIsCareful(p, events[last], oracle);
      assert LeadsCarefully(p, events[last], oracle, s, next);
    }
  }
}
