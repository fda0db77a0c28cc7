// What a fiber's execution leaves alone: every other living fiber, except that the response of one of
// its own children may be taken, and every slot that is lost or abandoned.
module FiberFrames {
  import opened Wrappers
  import opened FiberTable
  import opened FiberState
  import opened FiberSpec
  import opened FiberSched

  predicate RecordKept(f: Fiber, f': Fiber, pos: nat) {
    f' == f || (f.parent == Some(pos) && f' == f.(result := None))
  }

  // A slot that only its own fiber changes: it holds a living fiber, is lost, or was abandoned.
  predicate Steady(t: Table, i: nat) {
    Alive(t, i) || (i < |t.fibers| && i !in t.free && (i in t.lost || t.fibers[i].parent.None?))
  }

  ghost predicate SlotKept(s: State, s': State, i: nat, pos: nat) {
    i < |s.tab.fibers| && i < |s'.tab.fibers| && RecordKept(s.tab.fibers[i], s'.tab.fibers[i], pos)
    && (i !in s.tab.free ==> i !in s'.tab.free) && (i in s.tab.lost ==> i in s'.tab.lost)
    && (s.tab.fibers[i].parent.None? && i !in s.toexec ==> i !in s'.toexec)
  }

  ghost predicate OthersKept(s: State, s': State, pos: nat) {
    forall i: nat :: Steady(s.tab, i) && i != pos ==> SlotKept(s, s', i, pos)
  }

  lemma SteadyIsNotNext(t: Table, i: nat)
    requires Inv(t) && Steady(t, i)
    ensures i != NextSlot(t) && i !in t.free
  {
    NextSlotIsFree(t);
    assert SlotOk(t, i);
  }

  lemma OthersKeptTwice(s: State, s1: State, s2: State, pos: nat)
    requires OthersKept(s, s1, pos) && OthersKept(s1, s2, pos)
    ensures OthersKept(s, s2, pos)
  {
    forall i: nat | Steady(s.tab, i) && i != pos ensures SlotKept(s, s2, i, pos) {
      assert SlotKept(s, s1, i, pos);
      assert Steady(s1.tab, i);
      assert SlotKept(s1, s2, i, pos);
    }
  }

  lemma TakeChildFrame(s: State, p: nat, k: nat)
    requires Scene(s, p) && k < |s.tab.fibers[p].children|
    requires ChildOk(s.tab, p, s.tab.fibers[p].children[k]) && SlotOk(s.tab, s.tab.fibers[p].children[k])
    ensures OthersKept(s, TakeChild(s, p, k), p)
  {
    var s' := TakeChild(s, p, k);
    forall i: nat | Steady(s.tab, i) && i != p ensures SlotKept(s, s', i, p) {
    }
  }

  lemma {:induction false} ChildIterFrame(s: State, p: nat)
    requires Scene(s, p)
    ensures OthersKept(s, ChildIter(s, p).0, p)
    decreases |s.tab.fibers[p].children|
  {
    SceneFacts(s, p);
    var cs := s.tab.fibers[p].children;
    if cs == [] || FirstReady(s.tab, cs, 0) == |cs| {
      assert ChildIter(s, p).0 == s;
      SameIsKept(s, p);
    } else {
      var k := FirstReady(s.tab, cs, 0);
      TakeChildScene(s, p, k);
      TakeChildFrame(s, p, k);
      if s.tab.fibers[cs[k]].result.None? {
        ChildIterFrame(TakeChild(s, p, k), p);
        OthersKeptTwice(s, TakeChild(s, p, k), ChildIter(TakeChild(s, p, k), p).0, p);
      }
    }
  }

  lemma SameIsKept(s: State, pos: nat)
    ensures OthersKept(s, s, pos)
  {
    forall i: nat | Steady(s.tab, i) && i != pos ensures SlotKept(s, s, i, pos) {
    }
  }

  lemma SpawnFrame(s: State, parent: Option<nat>, schedule: bool, pos: nat)
    requires Inv(s.tab) && (parent.Some? ==> parent.value == pos && pos < |s.tab.fibers|)
    ensures OthersKept(s, SpawnFiber(s, parent, schedule), pos)
  {
    var s' := SpawnFiber(s, parent, schedule);
    forall i: nat | Steady(s.tab, i) && i != pos ensures SlotKept(s, s', i, pos) {
      SteadyIsNotNext(s.tab, i);
    }
  }

  lemma ResolveFrame(s: State, parent: Option<nat>, armed: bool, timeout: nat, ok: bool, pos: nat)
    requires Inv(s.tab) && (parent.Some? ==> parent.value == pos && pos < |s.tab.fibers| && pos != NextSlot(s.tab))
    ensures OthersKept(s, ResolveFiber(s, parent, armed, timeout, ok), pos)
  {
    var s' := ResolveFiber(s, parent, armed, timeout, ok);
    forall i: nat | Steady(s.tab, i) && i != pos ensures SlotKept(s, s', i, pos) {
      SteadyIsNotNext(s.tab, i);
    }
  }

  lemma RefuseFrame(s: State, pos: nat)
    requires Inv(s.tab)
    ensures OthersKept(s, Refuse(s), pos)
  {
    forall i: nat | Steady(s.tab, i) && i != pos ensures SlotKept(s, Refuse(s), i, pos) {
    }
  }

  // One call of a burst, and whether the fiber waits in it.
  function OpState(s: State, pos: nat, op: Op): (r: State)
    requires Scene(s, pos)
    ensures Scene(r, pos) && Kept(s, r, pos)
  {
    match op
    case Spawn(child, schedule) =>
      SceneSpawn(s, pos, child, schedule);
      SpawnFiber(s, ParentFor(child, pos), schedule)
    case Resolve(child, armed, timeout, ok) =>
      SceneResolve(s, pos, child, armed, timeout, ok);
      ResolveFiber(s, ParentFor(child, pos), armed, timeout, ok)
    case GetChild => ChildIter(s, pos).0
    case RefusedListener =>
      RefuseKeeps(s, pos);
      Refuse(s)
  }

  function WaitsAtOp(s: State, pos: nat, op: Op): bool
    requires Scene(s, pos)
  {
    op.GetChild? && ChildIter(s, pos).1.Block?
  }

  lemma RunOpsUnfolds(s: State, pos: nat, ops: seq<Op>)
    requires Scene(s, pos) && ops != []
    ensures var s1 := OpState(s, pos, ops[0]);
            RunOps(s, pos, ops) == if WaitsAtOp(s, pos, ops[0]) then (s1, true) else RunOps(s1, pos, ops[1..])
  {
  }

  lemma OpFrame(s: State, pos: nat, op: Op)
    requires Scene(s, pos)
    ensures OthersKept(s, OpState(s, pos, op), pos)
  {
    SceneFacts(s, pos);
    match op {
      case Spawn(child, schedule) => SpawnFrame(s, ParentFor(child, pos), schedule, pos);
      case Resolve(child, armed, timeout, ok) =>
        SceneResolve(s, pos, child, armed, timeout, ok);
        ResolveFrame(s, ParentFor(child, pos), armed, timeout, ok, pos);
      case GetChild => ChildIterFrame(s, pos);
      case RefusedListener => RefuseFrame(s, pos);
    }
  }

  lemma {:induction false} RunOpsFrame(s: State, pos: nat, ops: seq<Op>)
    requires Scene(s, pos)
    ensures OthersKept(s, RunOps(s, pos, ops).0, pos)
    decreases |ops|
  {
    if ops == [] {
      SameIsKept(s, pos);
    } else {
      RunOpsUnfolds(s, pos, ops);
      OpFrame(s, pos, ops[0]);
      var s1 := OpState(s, pos, ops[0]);
      hide RunOps, OthersKept, Scene, OpState, WaitsAtOp;
      if !WaitsAtOp(s, pos, ops[0]) {
        RunOpsFrame(s1, pos, ops[1..]);
        OthersKeptTwice(s, s1, RunOps(s1, pos, ops[1..]).0, pos);
      }
    }
  }

  lemma EndBurstFrame(s: State, pos: nat, end: Yield)
    requires Scene(s, pos) && EndBurst(s, pos, end).Some?
    ensures OthersKept(s, EndBurst(s, pos, end).value, pos)
  {
    var s' := EndBurst(s, pos, end).value;
    SceneFacts(s, pos);
    forall i: nat | Steady(s.tab, i) && i != pos ensures SlotKept(s, s', i, pos) {
    }
  }

  lemma WakeUpFrame(s: State, pos: nat)
    requires pos < |s.tab.fibers|
    ensures OthersKept(s, WakeUp(s, pos), pos)
  {
    var s' := WakeUp(s, pos);
    forall i: nat | Steady(s.tab, i) && i != pos ensures SlotKept(s, s', i, pos) {
    }
  }

  lemma MarkFrame(s: State, pos: nat, wait: Wait)
    requires pos < |s.tab.fibers|
    ensures OthersKept(s, Mark(s, pos, wait), pos)
  {
    var s' := Mark(s, pos, wait);
    forall i: nat | Steady(s.tab, i) && i != pos ensures SlotKept(s, s', i, pos) {
    }
  }

  // From a switch into a fiber to the end of the burst, and whether it waits in get_child instead.
  function UpToEnd(s: State, pos: nat, burst: Burst): (r: (State, bool))
    requires CanStep(s, pos) && s.tab.fibers[pos].func
    ensures Scene(r.0, pos)
  {
    WakeUpScene(s, pos);
    var s0 := WakeUp(s, pos);
    var (s1, waits) := if s.tab.fibers[pos].wait.AtChildIter? then var (a, r) := ChildIter(s0, pos); (a, r.Block?) else (s0, false);
    if waits then (s1, true) else RunOps(s1, pos, burst.ops)
  }

  lemma BodyUnfolds(s: State, pos: nat, burst: Burst)
    requires CanStep(s, pos) && s.tab.fibers[pos].func
    ensures var (s2, waits) := UpToEnd(s, pos, burst);
            Body(s, pos, burst) == if waits then Some(Mark(s2, pos, AtChildIter)) else EndBurst(s2, pos, burst.end)
  {
    hide CanStep, Scene, WakeUp, ChildIter, RunOps, EndBurst;
  }

  lemma UpToEndFrame(s: State, pos: nat, burst: Burst)
    requires CanStep(s, pos) && s.tab.fibers[pos].func
    ensures OthersKept(s, UpToEnd(s, pos, burst).0, pos)
  {
    WakeUpScene(s, pos);
    WakeUpFrame(s, pos);
    var s0 := WakeUp(s, pos);
    hide CanStep, Scene, WakeUp, ChildIter, RunOps, OthersKept;
    if s.tab.fibers[pos].wait.AtChildIter? {
      ChildIterFrame(s0, pos);
      OthersKeptTwice(s, s0, ChildIter(s0, pos).0, pos);
    }
    var (s1, waits) := if s.tab.fibers[pos].wait.AtChildIter? then var (a, r) := ChildIter(s0, pos); (a, r.Block?) else (s0, false);
    if !waits {
      RunOpsFrame(s1, pos, burst.ops);
      OthersKeptTwice(s, s1, RunOps(s1, pos, burst.ops).0, pos);
    }
  }

  // Between two switches a fiber leaves every other living fiber as it was, except for responses it
  // takes from its children.
  lemma BodyFrame(s: State, pos: nat, burst: Burst)
    requires CanStep(s, pos) && s.tab.fibers[pos].func && Body(s, pos, burst).Some?
    ensures OthersKept(s, Body(s, pos, burst).value, pos)
  {
    UpToEndFrame(s, pos, burst);
    BodyUnfolds(s, pos, burst);
    var (s2, waits) := UpToEnd(s, pos, burst);
    if waits {
      MarkFrame(s2, pos, AtChildIter);
    } else {
      EndBurstFrame(s2, pos, burst.end);
    }
    hide CanStep, Scene, Body, UpToEnd, EndBurst, OthersKept;
    OthersKeptTwice(s, s2, Body(s, pos, burst).value, pos);
  }

  lemma CloseFrame(s: State, pos: nat)
    requires pos < |s.tab.fibers|
    ensures OthersKept(s, Close(s, pos), pos)
  {
    var s' := Close(s, pos);
    forall i: nat | Steady(s.tab, i) && i != pos ensures SlotKept(s, s', i, pos) {
    }
  }

  lemma CleanStackFrame(s: State, pos: nat)
    requires Back(s, pos)
    ensures OthersKept(s, CleanStack(s, pos), pos)
  {
    var s' := CleanStack(s, pos);
    assert SlotOk(s.tab, pos);
    forall i: nat | Steady(s.tab, i) && i != pos ensures SlotKept(s, s', i, pos) {
    }
  }

  lemma RetireFrame(s: State, pos: nat)
    requires Good(s) && pos < |s.tab.fibers| && s.tab.fibers[pos].birth < s.tab.births
    ensures OthersKept(s, Retire(s, pos), pos) && OthersKept(s, Republish(s, pos), pos)
  {
    PublishShape(s, pos);
    forall i: nat | Steady(s.tab, i) && i != pos ensures SlotKept(s, Retire(s, pos), i, pos) && SlotKept(s, Republish(s, pos), i, pos) {
    }
  }

  // Every switch uses up a burst.
  lemma {:induction false} StepUsesBursts(s: State, pos: nat, oracle: nat -> Burst, k: nat)
    requires CanStep(s, pos)
    ensures StepInto(s, pos, oracle, k).Done? ==> StepInto(s, pos, oracle, k).next > k
    decreases s.tab.fibers[pos].birth, 1
  {
    if s.tab.fibers[pos].func {
      var after := Body(s, pos, oracle(k));
      if after.Some? {
        OutUsesBursts(after.value, pos, oracle, k + 1);
      }
    } else {
      FunclessBack(s, pos);
      OutUsesBursts(Close(s, pos), pos, oracle, k + 1);
    }
  }

  lemma {:induction false} OutUsesBursts(s: State, pos: nat, oracle: nat -> Burst, k: nat)
    requires Back(s, pos)
    ensures SteppedOut(s, pos, oracle, k).Done? ==> SteppedOut(s, pos, oracle, k).next >= k
    decreases s.tab.fibers[pos].birth, 0
  {
    CleanStackBack(s, pos);
    var s1 := CleanStack(s, pos);
    var f := s1.tab.fibers[pos];
    if f.parent.Some? && (f.state.Closed? || f.result.Some?) {
      ParentCanStep(s1, pos);
      StepUsesBursts(s1, f.parent.value, oracle, k);
    }
  }
}
