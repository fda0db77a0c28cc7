// What a switch into a fiber does to it, and who runs next: the fiber's timer and pending answer when it
// wakes up, when its parent is resumed, and what each event hands over.
module FiberSwitches {
  import opened Wrappers
  import opened Sequences
  import opened FiberTable
  import opened FiberState
  import opened FiberSpec
  import opened FiberSched
  import opened FiberFrames
  import opened FiberRuns
  import opened FiberLookups

  // ---------- waking up ----------

  // A fiber wakes up with its timer given up if it waited for its socket, and with the main stack's answer
  // taken if it waited for that; a new one gets a stack, the first of the pool or one never used before.
  lemma WakeUpMeans(s: State, pos: nat)
    requires pos < |s.tab.fibers|
    ensures var f, s' := s.tab.fibers[pos], WakeUp(s, pos);
            && |s'.tab.fibers| == |s.tab.fibers| && s'.tab.fibers == s.tab.fibers[pos := s'.tab.fibers[pos]]
            && s'.tab.free == s.tab.free && s'.toexec == s.toexec && s'.tomain == s.tomain && s'.results == s.results
            && s'.log == s.log.(joined := s.log.joined || f.wait.AtJoin?)
            && var f' := s'.tab.fibers[pos];
               && f'.wait.Running? && f'.wtoken == (f.wtoken && !f.wait.AtIo?)
               && f'.timedOut == (if f.wait.AtIo? then 0 else f.timedOut)
               && f'.result == (if f.wait.AtJoin? then None else f.result)
               && f'.connecting == f.connecting && f'.children == f.children && f'.parent == f.parent && f'.birth == f.birth
               && (!f.wait.NotStarted? ==> f'.stack == f.stack && f'.state == f.state && s'.tab.stacks == s.tab.stacks)
               && (f.wait.NotStarted? ==>
                     && f'.state.Stacked? && f'.t && !f'.param
                     && if s.tab.stacks == [] then f'.stack == Some(s.tab.made) && s'.tab.stacks == [] && s'.tab.made == s.tab.made + 1
                        else f'.stack == Some(s.tab.stacks[0]) && s'.tab.stacks == s.tab.stacks[1..] && s'.tab.made == s.tab.made)
  {
    assert s.tab.fibers == s.tab.fibers[pos := s.tab.fibers[pos]];
    match s.tab.fibers[pos].wait {
      case NotStarted =>
      case AtIo =>
      case AtJoin =>
      case _ =>
    }
  }

  // What a running fiber does before it gives up control does not touch its own timer.
  ghost predicate SameTimer(s: State, s': State, pos: nat) {
    && pos < |s.tab.fibers| && pos < |s'.tab.fibers|
    && s'.tab.fibers[pos].wtoken == s.tab.fibers[pos].wtoken && s'.tab.fibers[pos].timedOut == s.tab.fibers[pos].timedOut
  }

  lemma {:induction false} ChildIterTimer(s: State, p: nat)
    requires Scene(s, p)
    ensures SameTimer(s, ChildIter(s, p).0, p)
    decreases |s.tab.fibers[p].children|
  {
    SceneFacts(s, p);
    var cs := s.tab.fibers[p].children;
    if cs != [] {
      var k := FirstReady(s.tab, cs, 0);
      if k < |cs| {
        assert cs[k] in cs;
        TakeChildScene(s, p, k);
        if s.tab.fibers[cs[k]].result.None? {
          ChildIterTimer(TakeChild(s, p, k), p);
        }
      }
    }
  }

  lemma ResolveTimer(s: State, pos: nat, parent: Option<nat>, armed: bool, timeout: nat, ok: bool)
    requires Inv(s.tab) && pos < |s.tab.fibers| && pos != NextSlot(s.tab)
    requires parent.Some? ==> parent.value < |s.tab.fibers| && parent.value != NextSlot(s.tab)
    ensures SameTimer(s, ResolveFiber(s, parent, armed, timeout, ok), pos)
  {
    NextSlotIsFree(s.tab);
  }

  lemma OpTimer(s: State, pos: nat, op: Op)
    requires Scene(s, pos)
    ensures SameTimer(s, OpState(s, pos, op), pos)
  {
    AliveIsNotNext(s.tab, pos);
    match op {
      case Spawn(child, schedule) =>
      case Resolve(child, armed, timeout, ok) => ResolveTimer(s, pos, ParentFor(child, pos), armed, timeout, ok);
      case GetChild => ChildIterTimer(s, pos);
      case RefusedListener =>
    }
  }

  lemma {:induction false} RunOpsTimer(s: State, pos: nat, ops: seq<Op>)
    requires Scene(s, pos)
    ensures SameTimer(s, RunOps(s, pos, ops).0, pos)
    decreases |ops|
  {
    if ops != [] {
      RunOpsUnfolds(s, pos, ops);
      OpTimer(s, pos, ops[0]);
      hide RunOps, Scene, OpState, WaitsAtOp;
      if !WaitsAtOp(s, pos, ops[0]) {
        RunOpsTimer(OpState(s, pos, ops[0]), pos, ops[1..]);
      }
    }
  }

  lemma UpToEndTimer(s: State, pos: nat, burst: Burst)
    requires CanStep(s, pos) && s.tab.fibers[pos].func
    ensures SameTimer(WakeUp(s, pos), UpToEnd(s, pos, burst).0, pos)
  {
    WakeUpScene(s, pos);
    var s0 := WakeUp(s, pos);
    hide CanStep, Scene, WakeUp, ChildIter, RunOps;
    if s.tab.fibers[pos].wait.AtChildIter? {
      ChildIterTimer(s0, pos);
    }
    var (s1, waits) := if s.tab.fibers[pos].wait.AtChildIter? then var (a, r) := ChildIter(s0, pos); (a, r.Block?) else (s0, false);
    if !waits {
      RunOpsTimer(s1, pos, burst.ops);
    }
  }

  // After a stretch of a fiber its timer is set exactly if the stretch ends in a wait for the socket that
  // sets it, or it was set before and the fiber did not wait for its socket.
  lemma BodyTimerIff(s: State, pos: nat, burst: Burst)
    requires CanStep(s, pos) && s.tab.fibers[pos].func && Body(s, pos, burst).Some?
    ensures var f, s' := s.tab.fibers[pos], Body(s, pos, burst).value;
            && pos < |s'.tab.fibers|
            && (s'.tab.fibers[pos].wtoken <==>
                  (f.wtoken && !f.wait.AtIo?) || (!UpToEnd(s, pos, burst).1 && burst.end == Io(true)))
  {
    WakeUpMeans(s, pos);
    UpToEndTimer(s, pos, burst);
    BodyUnfolds(s, pos, burst);
    var (s2, waits) := UpToEnd(s, pos, burst);
    EndBurstTimer(s2, pos, burst.end);
    hide CanStep, Body, UpToEnd, EndBurst, WakeUp, Scene;
  }

  lemma EndBurstTimer(s: State, pos: nat, end: Yield)
    requires Scene(s, pos)
    ensures EndBurst(s, pos, end).Some? ==>
      var s' := EndBurst(s, pos, end).value;
      pos < |s'.tab.fibers| && (s'.tab.fibers[pos].wtoken <==> s.tab.fibers[pos].wtoken || end == Io(true))
  {
    SceneFacts(s, pos);
  }

  // A fiber that has closed puts its stack in front of the pool, where the next fiber to start takes it.
  lemma StackGoesFirst(s: State, pos: nat)
    requires Back(s, pos) && s.tab.fibers[pos].state.Closed? && s.tab.fibers[pos].t
    ensures s.tab.fibers[pos].stack.Some?
    ensures var t := CleanStack(s, pos).tab;
            && t.stacks == [s.tab.fibers[pos].stack.value] + s.tab.stacks && t.made == s.tab.made
            && pos < |t.fibers| && t.fibers[pos].stack.None? && !t.fibers[pos].t
  {
    assert SlotOk(s.tab, pos);
  }

  // ---------- who runs next ----------

  // The parent of a fiber that gave up control is resumed at once exactly if the fiber has closed or has a
  // response for it; otherwise control stays on the main stack and nothing else happens.
  lemma ParentResumesIff(s: State, pos: nat, oracle: nat -> Burst, k: nat)
    requires Back(s, pos) && s.tab.fibers[pos].parent.Some?
    ensures var f, s1 := s.tab.fibers[pos], CleanStack(s, pos);
            && (SteppedOut(s, pos, oracle, k) == Done(s1, k) <==> !f.state.Closed? && f.result.None?)
            && (f.state.Closed? || f.result.Some? ==>
                  CanStep(s1, f.parent.value) && SteppedOut(s, pos, oracle, k) == StepInto(s1, f.parent.value, oracle, k))
  {
    CleanStackBack(s, pos);
    var s1 := CleanStack(s, pos);
    var f := s1.tab.fibers[pos];
    ParentCanStep(s1, pos);
    StepUsesBursts(s1, f.parent.value, oracle, k);
    hide CanStep, StepInto, CleanStack;
  }

  // A fiber without a parent: its response goes to the results; if it has closed, its slot goes to the end
  // of the free list, and if it has not, but had a response, to the end of the queue.
  ghost predicate Settles(s: State, pos: nat, s': State)
    requires pos < |s.tab.fibers|
  {
    var f := s.tab.fibers[pos];
    && s'.results == s.results + Pending(f.result) && pos < |s'.tab.fibers| && s'.tab.fibers[pos].result.None?
    && s'.tab.free == (if f.state.Closed? then s.tab.free + [pos] else s.tab.free)
    && s'.toexec == (if !f.state.Closed? && f.result.Some? then s.toexec + [pos] else s.toexec)
  }

  lemma RootSettles(s: State, pos: nat, oracle: nat -> Burst, k: nat)
    requires Back(s, pos) && s.tab.fibers[pos].parent.None?
    ensures SteppedOut(s, pos, oracle, k).Done? && SteppedOut(s, pos, oracle, k).next == k
    ensures Settles(s, pos, SteppedOut(s, pos, oracle, k).s)
  {
    CleanStackBack(s, pos);
    var s1 := CleanStack(s, pos);
    CleanStackKeeps(s, pos);
    if s.tab.fibers[pos].state.Closed? {
      RetireQuiet(s1, pos);
    } else {
      RepublishQuiet(s1, pos);
    }
    PublishedSettles(s1, pos);
    hide CleanStack, Retire, Republish, Good;
  }

  lemma CleanStackKeeps(s: State, pos: nat)
    requires Back(s, pos)
    ensures var s1 := CleanStack(s, pos);
            && |s1.tab.fibers| == |s.tab.fibers| && s1.tab.free == s.tab.free && s1.results == s.results && s1.toexec == s.toexec
  {
    assert SlotOk(s.tab, pos);
  }

  lemma PublishedSettles(s: State, pos: nat)
    requires Good(s) && pos < |s.tab.fibers| && s.tab.fibers[pos].birth < s.tab.births
    ensures var closed, r := s.tab.fibers[pos].state.Closed?, s.tab.fibers[pos].result;
            Settles(s, pos, if closed then Retire(s, pos) else if r.Some? then Republish(s, pos) else s)
  {
    PublishShape(s, pos);
    assert s.results + [] == s.results;
    hide Good;
  }

  // A fiber woken by its socket has given its timer up for good: unless it sets another one for its next
  // wait, an entry of the old timer that is still to come does nothing.
  lemma WokenTimerIsSilent(s: State, oracle: nat -> Burst, later: nat -> Burst, rearmed: bool)
    requires Settled(s) && Allowed(s, Exec(NoAddress)) && Step(s, Exec(NoAddress), oracle).Done?
    requires var f := s.tab.fibers[s.toexec[0]]; f.wait.AtIo? && !f.connecting
    requires oracle(0).end != Io(true) && !oracle(0).end.Return?
    ensures var x, s' := s.toexec[0], Step(s, Exec(NoAddress), oracle).s;
            && Settled(s') && x < |s'.tab.fibers| && !s'.tab.fibers[x].wtoken
            && Allowed(s', TimedOut(x, rearmed)) && Step(s', TimedOut(x, rearmed), later) == Done(s', 0)
  {
    var x := s.toexec[0];
    QueuesDoNotMatter(s, Pop(s));
    assert SlotOk(s.tab, x);
    StepDropsTimer(Pop(s), x, oracle);
    hide Settled, StepInto, CanStep;
  }

  lemma StepDropsTimer(s: State, x: nat, oracle: nat -> Burst)
    requires CanStep(s, x) && s.tab.fibers[x].func && s.tab.fibers[x].wait.AtIo? && StepInto(s, x, oracle, 0).Done?
    requires oracle(0).end != Io(true) && !oracle(0).end.Return?
    ensures var s' := StepInto(s, x, oracle, 0).s; x < |s'.tab.fibers| && !s'.tab.fibers[x].wtoken
  {
    BodyTimerIff(s, x, oracle(0));
    var s1 := Body(s, x, oracle(0)).value;
    StillOpen(s, x, oracle(0));
    hide CanStep, Body;
    CleanStackBack(s1, x);
    var s2 := CleanStack(s1, x);
    CleanStackFrameSelf(s1, x);
    if s2.tab.fibers[x].parent.Some? {
      ParentCanStep(s2, x);
      if s2.tab.fibers[x].result.Some? {
        StepLeaves(s2, s2.tab.fibers[x].parent.value, oracle, 1, x);
      }
    } else {
      RepublishQuiet(s2, x);
      PublishShape(s2, x);
    }
  }

  lemma StillOpen(s: State, pos: nat, burst: Burst)
    requires CanStep(s, pos) && s.tab.fibers[pos].func && Body(s, pos, burst).Some? && !burst.end.Return?
    ensures var s' := Body(s, pos, burst).value;
            pos < |s'.tab.fibers| && !s'.tab.fibers[pos].state.Closed? && Alive(s'.tab, pos)
  {
    BodyUnfolds(s, pos, burst);
    var (s2, waits) := UpToEnd(s, pos, burst);
    SceneFacts(s2, pos);
    hide CanStep, Body, UpToEnd;
  }

  lemma CleanStackFrameSelf(s: State, pos: nat)
    requires Back(s, pos) && Alive(s.tab, pos)
    ensures CleanStack(s, pos) == s
  {
    assert SlotOk(s.tab, pos);
  }
}
