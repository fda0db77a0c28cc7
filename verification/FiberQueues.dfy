// The runner's queues are first in, first out: nothing is put in front of what is there already, and
// nothing is taken but from the front.
module FiberQueues {
  import opened Wrappers
  import opened Sequences
  import opened FiberTable
  import opened FiberState
  import opened FiberSpec
  import opened FiberSched
  import opened FiberFrames
  import opened FiberRuns

  // Some were added at the end, and some taken from the front.
  ghost predicate Queued(q: seq<nat>, q': seq<nat>) {
    exists added: seq<nat>, k: nat :: QueuedBy(q, added, k, q')
  }

  ghost predicate QueuedBy(q: seq<nat>, added: seq<nat>, k: nat, q': seq<nat>) {
    k <= |q + added| && q' == (q + added)[k..]
  }

  lemma QueuedTwice(q: seq<nat>, q1: seq<nat>, q2: seq<nat>)
    requires Queued(q, q1) && Queued(q1, q2)
    ensures Queued(q, q2)
  {
    var a: seq<nat>, k: nat :| QueuedBy(q, a, k, q1);
    var b: seq<nat>, j: nat :| QueuedBy(q1, b, j, q2);
    assert q + (a + b) == (q + a) + b;
    assert ((q + a)[k..] + b)[j..] == (q + (a + b))[k + j..];
    assert QueuedBy(q, a + b, k + j, q2);
  }

  lemma QueuedOnce(q: seq<nat>, x: nat)
    ensures Queued(q, q) && Queued(q, q + [x]) && (q != [] ==> Queued(q, q[1..]))
  {
    assert QueuedBy(q, [], 0, q);
    assert QueuedBy(q, [x], 0, q + [x]);
    if q != [] {
      assert QueuedBy(q, [], 1, q[1..]);
    }
  }

  // The queues of fibers to run, of fibers for the main stack and of results only grow at the end, and
  // free slots are reused in the order in which they were given back.
  ghost predicate Ordered(s: State, s': State) {
    && s.toexec <= s'.toexec && s.tomain <= s'.tomain && s.results <= s'.results && s.log.main <= s'.log.main
    && Queued(s.tab.free, s'.tab.free)
  }

  lemma OrderedTwice(s: State, s1: State, s2: State)
    requires Ordered(s, s1) && Ordered(s1, s2)
    ensures Ordered(s, s2)
  {
    QueuedTwice(s.tab.free, s1.tab.free, s2.tab.free);
  }

  lemma SameOrdered(s: State, s': State)
    requires s.toexec <= s'.toexec && s.tomain <= s'.tomain && s.results <= s'.results && s.log.main <= s'.log.main
    requires s'.tab.free == s.tab.free || (s.tab.free != [] && s'.tab.free == s.tab.free[1..]) || exists x :: s'.tab.free == s.tab.free + [x]
    ensures Ordered(s, s')
  {
    if x :| s'.tab.free == s.tab.free + [x] {
      QueuedOnce(s.tab.free, x);
    } else {
      QueuedOnce(s.tab.free, 0);
    }
  }

  lemma TakeChildOrdered(s: State, p: nat, k: nat)
    requires Scene(s, p) && k < |s.tab.fibers[p].children|
    requires ChildOk(s.tab, p, s.tab.fibers[p].children[k]) && SlotOk(s.tab, s.tab.fibers[p].children[k])
    ensures Ordered(s, TakeChild(s, p, k))
  {
    SameOrdered(s, TakeChild(s, p, k));
  }

  lemma {:induction false} ChildIterOrdered(s: State, p: nat)
    requires Scene(s, p)
    ensures Ordered(s, ChildIter(s, p).0)
    decreases |s.tab.fibers[p].children|
  {
    SceneFacts(s, p);
    var cs := s.tab.fibers[p].children;
    if cs == [] || FirstReady(s.tab, cs, 0) == |cs| {
      SameOrdered(s, s);
    } else {
      var k := FirstReady(s.tab, cs, 0);
      TakeChildScene(s, p, k);
      TakeChildOrdered(s, p, k);
      if s.tab.fibers[cs[k]].result.None? {
        ChildIterOrdered(TakeChild(s, p, k), p);
        OrderedTwice(s, TakeChild(s, p, k), ChildIter(TakeChild(s, p, k), p).0);
      }
    }
  }

  lemma EnrollOrdered(s: State, func: bool, parent: Option<nat>)
    requires Inv(s.tab) && (parent.Some? ==> parent.value < |s.tab.fibers|)
    ensures Ordered(s, Enroll(s, func, func, parent))
  {
    NextSlotIsFree(s.tab);
    SameOrdered(s, Enroll(s, func, func, parent));
  }

  lemma ResolveOrdered(s: State, parent: Option<nat>, armed: bool, timeout: nat, ok: bool)
    requires Inv(s.tab) && (parent.Some? ==> parent.value < |s.tab.fibers| && parent.value != NextSlot(s.tab))
    ensures Ordered(s, ResolveFiber(s, parent, armed, timeout, ok))
  {
    var s1, s2 := Enroll(s, true, true, parent), ResolveFiber(s, parent, armed, timeout, ok);
    EnrollOrdered(s, true, parent);
    ResolveQueues(s, parent, armed, timeout, ok);
    SameOrdered(s1, s2);
    OrderedTwice(s, s1, s2);
  }

  lemma ResolveQueues(s: State, parent: Option<nat>, armed: bool, timeout: nat, ok: bool)
    requires Inv(s.tab) && (parent.Some? ==> parent.value < |s.tab.fibers| && parent.value != NextSlot(s.tab))
    ensures var s1, s2 := Enroll(s, true, true, parent), ResolveFiber(s, parent, armed, timeout, ok);
            && s2.toexec == s1.toexec && s2.tomain == s1.tomain && s2.results == s1.results && s2.log == s1.log
            && s2.tab.free == (if !ok && armed then s1.tab.free + [NextSlot(s.tab)] else s1.tab.free)
  {
    NextSlotIsFree(s.tab);
  }

  lemma OpOrdered(s: State, pos: nat, op: Op)
    requires Scene(s, pos)
    ensures Ordered(s, OpState(s, pos, op))
  {
    AliveIsNotNext(s.tab, pos);
    match op {
      case Spawn(child, schedule) =>
        var s1 := Enroll(s, true, true, ParentFor(child, pos));
        EnrollOrdered(s, true, ParentFor(child, pos));
        SameOrdered(s1, SpawnFiber(s, ParentFor(child, pos), schedule));
        OrderedTwice(s, s1, SpawnFiber(s, ParentFor(child, pos), schedule));
      case Resolve(child, armed, timeout, ok) => ResolveOrdered(s, ParentFor(child, pos), armed, timeout, ok);
      case GetChild => ChildIterOrdered(s, pos);
      case RefusedListener => SameOrdered(s, Refuse(s));
    }
  }

  lemma {:induction false} RunOpsOrdered(s: State, pos: nat, ops: seq<Op>)
    requires Scene(s, pos)
    ensures Ordered(s, RunOps(s, pos, ops).0)
    decreases |ops|
  {
    if ops == [] {
      SameOrdered(s, s);
    } else {
      RunOpsUnfolds(s, pos, ops);
      OpOrdered(s, pos, ops[0]);
      var s1 := OpState(s, pos, ops[0]);
      hide RunOps, Ordered, Scene, OpState, WaitsAtOp;
      if !WaitsAtOp(s, pos, ops[0]) {
        RunOpsOrdered(s1, pos, ops[1..]);
        OrderedTwice(s, s1, RunOps(s1, pos, ops[1..]).0);
      }
    }
  }

  lemma WakeUpOrdered(s: State, pos: nat)
    requires pos < |s.tab.fibers|
    ensures Ordered(s, WakeUp(s, pos))
  {
    var s' := WakeUp(s, pos);
    assert s'.toexec == s.toexec && s'.tomain == s.tomain && s'.results == s.results && s'.log.main == s.log.main;
    assert s'.tab.free == s.tab.free;
    hide WakeUp;
    SameOrdered(s, s');
  }

  lemma EndBurstOrdered(s: State, pos: nat, end: Yield)
    requires Scene(s, pos) && EndBurst(s, pos, end).Some?
    ensures Ordered(s, EndBurst(s, pos, end).value)
  {
    SceneFacts(s, pos);
    SameOrdered(s, EndBurst(s, pos, end).value);
  }

  lemma BodyOrdered(s: State, pos: nat, burst: Burst)
    requires CanStep(s, pos) && s.tab.fibers[pos].func && Body(s, pos, burst).Some?
    ensures Ordered(s, Body(s, pos, burst).value)
  {
    UpToEndOrdered(s, pos, burst);
    BodyUnfolds(s, pos, burst);
    var (s2, waits) := UpToEnd(s, pos, burst);
    if waits {
      SameOrdered(s2, Mark(s2, pos, AtChildIter));
    } else {
      EndBurstOrdered(s2, pos, burst.end);
    }
    hide CanStep, Scene, Body, UpToEnd, EndBurst, Ordered;
    OrderedTwice(s, s2, Body(s, pos, burst).value);
  }

  lemma UpToEndOrdered(s: State, pos: nat, burst: Burst)
    requires CanStep(s, pos) && s.tab.fibers[pos].func
    ensures Ordered(s, UpToEnd(s, pos, burst).0)
  {
    WakeUpScene(s, pos);
    WakeUpOrdered(s, pos);
    var s0 := WakeUp(s, pos);
    hide CanStep, Scene, WakeUp, ChildIter, RunOps, Ordered;
    if s.tab.fibers[pos].wait.AtChildIter? {
      ChildIterOrdered(s0, pos);
      OrderedTwice(s, s0, ChildIter(s0, pos).0);
    }
    var (s1, waits) := if s.tab.fibers[pos].wait.AtChildIter? then var (a, r) := ChildIter(s0, pos); (a, r.Block?) else (s0, false);
    if !waits {
      RunOpsOrdered(s1, pos, burst.ops);
      OrderedTwice(s, s1, RunOps(s1, pos, burst.ops).0);
    }
  }

  lemma {:induction false} StepOrdered(s: State, pos: nat, oracle: nat -> Burst, k: nat)
    requires CanStep(s, pos) && StepInto(s, pos, oracle, k).Done?
    ensures Ordered(s, StepInto(s, pos, oracle, k).s)
    decreases s.tab.fibers[pos].birth, 1
  {
    var s1: State;
    if s.tab.fibers[pos].func {
      s1 := Body(s, pos, oracle(k)).value;
      BodyOrdered(s, pos, oracle(k));
    } else {
      FunclessBack(s, pos);
      s1 := Close(s, pos);
      SameOrdered(s, s1);
    }
    OutOrdered(s1, pos, oracle, k + 1);
    hide Ordered, Body, CanStep, SteppedOut;
    OrderedTwice(s, s1, SteppedOut(s1, pos, oracle, k + 1).s);
  }

  lemma {:induction false} OutOrdered(s: State, pos: nat, oracle: nat -> Burst, k: nat)
    requires Back(s, pos) && SteppedOut(s, pos, oracle, k).Done?
    ensures Ordered(s, SteppedOut(s, pos, oracle, k).s)
    decreases s.tab.fibers[pos].birth, 0
  {
    CleanStackBack(s, pos);
    var s1 := CleanStack(s, pos);
    CleanStackOrdered(s, pos);
    var f := s1.tab.fibers[pos];
    hide Good, Retire, Republish, Ordered, CleanStack;
    if f.parent.Some? {
      ParentCanStep(s1, pos);
      if f.state.Closed? || f.result.Some? {
        StepOrdered(s1, f.parent.value, oracle, k);
        OrderedTwice(s, s1, StepInto(s1, f.parent.value, oracle, k).s);
      }
    } else if f.state.Closed? {
      RetireQuiet(s1, pos);
      PublishedOrdered(s1, pos);
      OrderedTwice(s, s1, Retire(s1, pos));
    } else {
      RepublishQuiet(s1, pos);
      PublishedOrdered(s1, pos);
      if f.result.Some? {
        OrderedTwice(s, s1, Republish(s1, pos));
      }
    }
  }

  lemma CleanStackOrdered(s: State, pos: nat)
    requires Back(s, pos)
    ensures Ordered(s, CleanStack(s, pos))
  {
    assert SlotOk(s.tab, pos);
    SameOrdered(s, CleanStack(s, pos));
  }

  lemma PublishedOrdered(s: State, pos: nat)
    requires Good(s) && pos < |s.tab.fibers| && s.tab.fibers[pos].birth < s.tab.births
    ensures Ordered(s, Retire(s, pos)) && Ordered(s, Republish(s, pos))
  {
    PublishShape(s, pos);
    PublishAdds(s, pos);
    hide Good, Publish;
    SameOrdered(s, Retire(s, pos));
    SameOrdered(s, Republish(s, pos));
  }

  lemma PublishAdds(s: State, pos: nat)
    requires Good(s) && pos < |s.tab.fibers| && s.tab.fibers[pos].birth < s.tab.births
    ensures var s' := Publish(s, pos);
            s'.toexec == s.toexec && s'.tomain == s.tomain && s.results <= s'.results && s.log.main <= s'.log.main
  {
  }

  // What an event takes from the front: the entry that is run, or the result that is fetched.
  function Front(s: State, e: Event): State {
    match e
    case Exec(_) => if s.toexec == [] then s else s.(toexec := s.toexec[1..])
    case PopResponse => if s.results == [] then s else s.(results := s.results[1..])
    case _ => s
  }

  // Main result on queues: every event takes at most one entry, from the front of the queue it is for, and
  // adds only at the ends.
  lemma EventOrdered(s: State, e: Event, oracle: nat -> Burst)
    requires Settled(s) && Allowed(s, e) && Step(s, e, oracle).Done?
    ensures Ordered(Front(s, e), Step(s, e, oracle).s)
  {
    match e {
      case NewFiberEvent => FiberOrdered(s, true);
      case RefusedListenerEvent => SameOrdered(s, Refuse(s));
      case NewResponseTimer(resp, armed) => ResponseOrdered(s, resp, armed);
      case NewFiberTimer(armed) => EnrollOrdered(s, true, None);
      case NewResolve(armed, timeout, ok) => ResolveOrdered(s, None, armed, timeout, ok);
      case DropTimer(pos) => CancelOrdered(s, pos);
      case Exec(reply) => ExecOrdered(s, reply, oracle);
      case TimedOut(pos, rearmed) => TimeoutOrdered(s, pos, rearmed, oracle);
      case Signal(pos) => SameOrdered(s, s.(toexec := s.toexec + [pos]));
      case PopResponse => SameOrdered(Front(s, PopResponse), Fetch(s));
      case ResumeFiber(pos, answer) => SameOrdered(s, Answer(s, pos, answer));
    }
    hide Settled, StepInto;
  }

  lemma FiberOrdered(s: State, schedule: bool)
    requires Inv(s.tab)
    ensures Ordered(s, SpawnFiber(s, None, schedule))
  {
    var s1 := Enroll(s, true, true, None);
    EnrollOrdered(s, true, None);
    SameOrdered(s1, SpawnFiber(s, None, schedule));
    OrderedTwice(s, s1, SpawnFiber(s, None, schedule));
  }

  lemma ResponseOrdered(s: State, resp: Resp, armed: bool)
    requires Settled(s)
    ensures Ordered(s, ResponseTimer(s, resp, armed))
  {
    EnrollKeepsGood(s, false, false, None);
    NextSlotIsFree(s.tab);
    SameOrdered(s, ResponseTimer(s, resp, armed));
  }

  lemma CancelOrdered(s: State, pos: nat)
    requires Settled(s) && Allowed(s, DropTimer(pos))
    ensures Ordered(s, CancelTimer(s, pos))
  {
    assert SlotOk(s.tab, pos);
    SameOrdered(s, CancelTimer(s, pos));
  }

  lemma ExecOrdered(s: State, reply: Reply, oracle: nat -> Burst)
    requires Settled(s) && Allowed(s, Exec(reply)) && ExecNext(s, reply, oracle).Done?
    ensures Ordered(Pop(s), ExecNext(s, reply, oracle).s)
  {
    var pos := s.toexec[0];
    QueuesDoNotMatter(s, Pop(s));
    if !s.tab.fibers[pos].connecting {
      StepOrdered(Pop(s), pos, oracle, 0);
    } else if reply.NoAddress? {
      SameOrdered(Pop(s), Pop(s));
    } else {
      AddressCanStep(s, reply);
      SameOrdered(Pop(s), HaveAddress(Pop(s), pos));
      if !reply.registered {
        StepOrdered(HaveAddress(Pop(s), pos), pos, oracle, 0);
        OrderedTwice(Pop(s), HaveAddress(Pop(s), pos), StepInto(HaveAddress(Pop(s), pos), pos, oracle, 0).s);
      }
    }
    hide Settled, CanStep, StepInto, Ordered;
  }

  lemma TimeoutOrdered(s: State, pos: nat, rearmed: bool, oracle: nat -> Burst)
    requires Settled(s) && Allowed(s, TimedOut(pos, rearmed)) && TimeoutStep(s, pos, rearmed, oracle).Done?
    ensures Ordered(s, TimeoutStep(s, pos, rearmed, oracle).s)
  {
    var f := s.tab.fibers[pos];
    if !f.wtoken {
      SameOrdered(s, s);
    } else {
      TimeoutSettled(s, pos, rearmed);
      var s1 := Put(s, pos, AfterTimeout(f, rearmed));
      SameOrdered(s, s1);
      if !(f.connecting && f.timedOut > 1) {
        StepOrdered(s1, pos, oracle, 0);
        OrderedTwice(s, s1, StepInto(s1, pos, oracle, 0).s);
      }
    }
    hide Settled, CanStep, StepInto, Ordered;
  }
}
