// How long a name lookup may take: the countdown of a fiber that waits for one, over runs.
module FiberLookups {
  import opened Wrappers
  import opened FiberTable
  import opened FiberState
  import opened FiberSpec
  import opened FiberSched
  import opened FiberFrames
  import opened FiberRuns

  // Slot x holds the b-th fiber, which waits for a lookup, with n ticks left and its timer set.
  ghost predicate Looking(s: State, x: nat, b: nat, n: nat) {
    && x < |s.tab.fibers| && s.tab.fibers[x].wait.NotStarted? && s.tab.fibers[x].connecting && s.tab.fibers[x].wtoken
    && s.tab.fibers[x].timedOut == n && s.tab.fibers[x].birth == b
  }

  // The record is the same, except that its response may have been taken.
  ghost predicate SameBut(s: State, s': State, x: nat) {
    && x < |s.tab.fibers| && x < |s'.tab.fibers|
    && s'.tab.fibers[x].(result := None) == s.tab.fibers[x].(result := None)
  }

  // ---------- what a switch leaves alone: fibers that have not started, and younger ones ----------

  ghost predicate Beside(s: State, x: nat, pos: nat) {
    && x < |s.tab.fibers| && pos < |s.tab.fibers| && x != pos
    && (s.tab.fibers[x].wait.NotStarted? || (Alive(s.tab, x) && s.tab.fibers[x].birth > s.tab.fibers[pos].birth))
  }

  lemma KeptSame(s: State, s': State, pos: nat, x: nat)
    requires OthersKept(s, s', pos) && Alive(s.tab, x) && x != pos
    ensures SameBut(s, s', x)
  {
    assert SlotKept(s, s', x, pos);
  }

  lemma {:induction false} StepLeaves(s: State, pos: nat, oracle: nat -> Burst, k: nat, x: nat)
    requires CanStep(s, pos) && Beside(s, x, pos) && StepInto(s, pos, oracle, k).Done?
    ensures SameBut(s, StepInto(s, pos, oracle, k).s, x)
    decreases s.tab.fibers[pos].birth, 1
  {
    if s.tab.fibers[pos].func {
      var s1 := Body(s, pos, oracle(k)).value;
      BodyFrame(s, pos, oracle(k));
      KeptSame(s, s1, pos, x);
      OutLeaves(s1, pos, oracle, k + 1, x);
    } else {
      FunclessBack(s, pos);
      CloseFrame(s, pos);
      KeptSame(s, Close(s, pos), pos, x);
      OutLeaves(Close(s, pos), pos, oracle, k + 1, x);
    }
  }

  lemma {:induction false} OutLeaves(s: State, pos: nat, oracle: nat -> Burst, k: nat, x: nat)
    requires Back(s, pos) && Beside(s, x, pos) && SteppedOut(s, pos, oracle, k).Done?
    ensures SameBut(s, SteppedOut(s, pos, oracle, k).s, x)
    decreases s.tab.fibers[pos].birth, 0
  {
    CleanStackBack(s, pos);
    CleanStackFrame(s, pos);
    var s1 := CleanStack(s, pos);
    KeptSame(s, s1, pos, x);
    var f := s1.tab.fibers[pos];
    if f.parent.Some? {
      ParentCanStep(s1, pos);
      if f.state.Closed? || f.result.Some? {
        assert SlotOk(s1.tab, pos) && ParentOk(s1.tab, pos, f.parent.value) && SlotOk(s1.tab, f.parent.value);
        assert SlotOk(s1.tab, x);
        StepLeaves(s1, f.parent.value, oracle, k, x);
      }
    } else if f.state.Closed? {
      RetireQuiet(s1, pos);
      RetireFrame(s1, pos);
      KeptSame(s1, Retire(s1, pos), pos, x);
    } else {
      RepublishQuiet(s1, pos);
      RetireFrame(s1, pos);
      if f.result.Some? {
        KeptSame(s1, Republish(s1, pos), pos, x);
      }
    }
  }

  // ---------- one event ----------

  // The event neither delivers an address to slot x, nor gives up its timer, nor fails to set it again.
  ghost predicate Undisturbed(s: State, e: Event, x: nat) {
    && (e.Exec? && s.toexec != [] && s.toexec[0] == x ==> e.reply.NoAddress?)
    && (e.DropTimer? ==> e.pos != x) && (e.TimedOut? && e.pos == x ==> e.rearmed)
  }

  function Ticks(e: Event, x: nat): nat {
    if e.TimedOut? && e.pos == x then 1 else 0
  }

  lemma EventCounts(s: State, e: Event, oracle: nat -> Burst, x: nat, b: nat, n: nat)
    requires Settled(s) && Allowed(s, e) && Looking(s, x, b, n) && Undisturbed(s, e, x) && Ticks(e, x) < n && Step(s, e, oracle).Done?
    ensures Looking(Step(s, e, oracle).s, x, b, n - Ticks(e, x))
  {
    assert SlotOk(s.tab, x);
    AliveIsNotNext(s.tab, x);
    match e {
      case NewFiberEvent => SpawnFrame(s, None, true, |s.tab.fibers|); KeptSame(s, SpawnFiber(s, None, true), |s.tab.fibers|, x);
      case NewResolve(armed, timeout, ok) =>
        ResolveFrame(s, None, armed, timeout, ok, |s.tab.fibers|);
        KeptSame(s, ResolveFiber(s, None, armed, timeout, ok), |s.tab.fibers|, x);
      case Exec(reply) => ExecCounts(s, reply, oracle, x, b, n);
      case TimedOut(pos, rearmed) => TimeoutCounts(s, pos, rearmed, oracle, x, b, n);
      case _ =>
    }
    hide Settled, StepInto;
  }

  lemma ExecCounts(s: State, reply: Reply, oracle: nat -> Burst, x: nat, b: nat, n: nat)
    requires Settled(s) && Allowed(s, Exec(reply)) && Looking(s, x, b, n) && Undisturbed(s, Exec(reply), x)
    requires ExecNext(s, reply, oracle).Done?
    ensures Looking(ExecNext(s, reply, oracle).s, x, b, n)
  {
    var pos := s.toexec[0];
    QueuesDoNotMatter(s, Pop(s));
    if !s.tab.fibers[pos].connecting {
      StepLeaves(Pop(s), pos, oracle, 0, x);
    } else if reply.Address? {
      AddressCanStep(s, reply);
      if !reply.registered {
        StepLeaves(HaveAddress(Pop(s), pos), pos, oracle, 0, x);
      }
    }
    hide Settled, StepInto, CanStep;
  }

  lemma TimeoutCounts(s: State, pos: nat, rearmed: bool, oracle: nat -> Burst, x: nat, b: nat, n: nat)
    requires Settled(s) && Allowed(s, TimedOut(pos, rearmed)) && Looking(s, x, b, n)
    requires pos == x ==> rearmed && n > 1
    requires TimeoutStep(s, pos, rearmed, oracle).Done?
    ensures Looking(TimeoutStep(s, pos, rearmed, oracle).s, x, b, if pos == x then n - 1 else n)
  {
    var f := s.tab.fibers[pos];
    if f.wtoken {
      TimeoutSettled(s, pos, rearmed);
      if !(f.connecting && f.timedOut > 1) {
        StepLeaves(Put(s, pos, AfterTimeout(f, rearmed)), pos, oracle, 0, x);
      }
    }
    hide Settled, StepInto, CanStep;
  }

  // ---------- runs ----------

  ghost predicate LeadsUndisturbed(p: State, e: Event, oracle: nat -> Burst, s: State, next: nat, x: nat) {
    Leads(p, e, oracle, s, next) && Undisturbed(p, e, x)
  }

  ghost predicate RunsUndisturbed(s0: State, events: seq<Event>, s: State, x: nat)
    decreases |events|
  {
    if events == [] then s == s0
    else
      var last := |events| - 1;
      exists p: State, oracle: nat -> Burst, next: nat ::
        RunsUndisturbed(s0, events[..last], p, x) && LeadsUndisturbed(p, events[last], oracle, s, next, x)
  }

  function AllTicks(events: seq<Event>, x: nat): nat {
    if events == [] then 0 else AllTicks(events[..|events| - 1], x) + Ticks(events[|events| - 1], x)
  }

  lemma LeadCounts(p: State, e: Event, oracle: nat -> Burst, s: State, next: nat, x: nat, b: nat, n: nat)
    requires Leads(p, e, oracle, s, next) && Undisturbed(p, e, x) && Looking(p, x, b, n) && Ticks(e, x) < n
    ensures Settled(s) && Looking(s, x, b, n - Ticks(e, x))
  {
    EventCounts(p, e, oracle, x, b, n);
    hide Settled, Looking, Undisturbed, Allowed;
  }

  lemma LastEvent(s0: State, events: seq<Event>, s: State, x: nat) returns (p: State, oracle: nat -> Burst, next: nat)
    requires events != [] && RunsUndisturbed(s0, events, s, x)
    ensures var last := |events| - 1;
            && RunsUndisturbed(s0, events[..last], p, x) && LeadsUndisturbed(p, events[last], oracle, s, next, x)
            && AllTicks(events, x) == AllTicks(events[..last], x) + Ticks(events[last], x)
  {
    hide LeadsUndisturbed;
    var last := |events| - 1;
    p, oracle, next :| RunsUndisturbed(s0, events[..last], p, x) && LeadsUndisturbed(p, events[last], oracle, s, next, x);
  }

  lemma NoEvents(s0: State, s: State, x: nat)
    requires RunsUndisturbed(s0, [], s, x)
    ensures s == s0 && AllTicks([], x) == 0
  {
  }

  lemma {:induction false} StillLooking(s0: State, events: seq<Event>, s: State, x: nat, b: nat, n: nat)
    requires Settled(s0) && Looking(s0, x, b, n) && RunsUndisturbed(s0, events, s, x) && AllTicks(events, x) < n
    ensures Settled(s) && Looking(s, x, b, n - AllTicks(events, x))
    decreases |events|
  {
    hide Settled, Leads, Looking, Undisturbed, RunsUndisturbed, AllTicks, Ticks;
    if events == [] {
      NoEvents(s0, s, x);
    } else {
      var last := |events| - 1;
      var p, oracle, next := LastEvent(s0, events, s, x);
      StillLooking(s0, events[..last], p, x, b, n);
      LeadCounts(p, events[last], oracle, s, next, x, b, n - AllTicks(events[..last], x));
    }
  }

  // At the last tick the lookup is given up, and the fiber switched into, whether or not its timer could
  // have been set again.
  lemma LastTick(s: State, x: nat, b: nat, rearmed: bool, oracle: nat -> Burst)
    requires Settled(s) && Looking(s, x, b, 1)
    ensures Allowed(s, TimedOut(x, rearmed))
    ensures var s1 := Put(s, x, s.tab.fibers[x].(wtoken := false, timedOut := 0));
            CanStep(s1, x) && Step(s, TimedOut(x, rearmed), oracle) == StepInto(s1, x, oracle, 0)
  {
    TimeoutSettled(s, x, rearmed);
  }

  // The fiber waits through fewer than n timer events, and is switched into at the n-th.
  ghost predicate RunsOutAfter(n: nat, ticks: nat, s: State, x: nat, b: nat, rearmed: bool, oracle: nat -> Burst) {
    && (ticks < n ==>
          && x < |s.tab.fibers| && s.tab.fibers[x].birth == b && s.tab.fibers[x].wait.NotStarted? && s.tab.fibers[x].connecting
          && s.tab.fibers[x].timedOut == n - ticks)
    && (ticks == n - 1 ==>
          && x < |s.tab.fibers| && Settled(s) && Allowed(s, TimedOut(x, rearmed))
          && var s1 := Put(s, x, s.tab.fibers[x].(wtoken := false, timedOut := 0));
             CanStep(s1, x) && Step(s, TimedOut(x, rearmed), oracle) == StepInto(s1, x, oracle, 0))
  }

  lemma LookingRunsOut(s0: State, events: seq<Event>, s: State, x: nat, b: nat, n: nat, rearmed: bool, oracle: nat -> Burst)
    requires Settled(s0) && Looking(s0, x, b, n) && RunsUndisturbed(s0, events, s, x)
    ensures RunsOutAfter(n, AllTicks(events, x), s, x, b, rearmed, oracle)
  {
    hide Settled, RunsUndisturbed, Step, StepInto, CanStep;
    if AllTicks(events, x) < n {
      StillLooking(s0, events, s, x, b, n);
    }
    if AllTicks(events, x) == n - 1 {
      LastTick(s, x, b, rearmed, oracle);
    }
  }

  // Main result on lookups: for a timeout in nanoseconds, a lookup that is started with its timer set, is
  // left undisturbed and has its timer set again each time, keeps its fiber from starting through fewer
  // than N timer events, and at the N-th the fiber is switched into; N is the number of whole ticks of
  // 250 ms in the timeout, but at least 1 and at most 255.
  lemma LookupRunsOut(s: State, timeout: nat, events: seq<Event>, s': State, rearmed: bool, oracle: nat -> Burst)
    requires Settled(s) && RunsUndisturbed(ResolveFiber(s, None, true, timeout, true), events, s', NextSlot(s.tab))
    ensures var x, ticks := NextSlot(s.tab), timeout / 250_000_000;
            RunsOutAfter(if ticks == 0 then 1 else if ticks <= 255 then ticks else 255, AllTicks(events, x), s', x, s.tab.births, rearmed, oracle)
  {
    ResolveKeeps(s, None, true, timeout, true, -1);
    assert timeout / 1_000_000 / 250 == timeout / 250_000_000;
    ResolvedLooks(s, None, timeout);
    var s0 := ResolveFiber(s, None, true, timeout, true);
    assert Settled(s0);
    hide Settled, RunsUndisturbed, Looking, ResolveFiber, RunsOutAfter;
    LookingRunsOut(s0, events, s', NextSlot(s.tab), s.tab.births, LookupTicks(timeout), rearmed, oracle);
  }

  // A lookup with its timer set has the whole of its time, whoever starts it.
  lemma ResolvedLooks(s: State, parent: Option<nat>, timeout: nat)
    requires Inv(s.tab) && (parent.Some? ==> parent.value < |s.tab.fibers| && parent.value != NextSlot(s.tab))
    ensures var s', x := ResolveFiber(s, parent, true, timeout, true), NextSlot(s.tab);
            Looking(s', x, s.tab.births, LookupTicks(timeout))
  {
    NextSlotIsFree(s.tab);
  }

  // ---------- answered lookups ----------

  // A lookup that is answered has no timer and is no lookup any more: whatever its queue entry brings next
  // switches into the fiber, and a timer entry left behind does nothing.
  lemma AnsweredLookup(s: State, registered: bool, oracle: nat -> Burst, rearmed: bool)
    requires Settled(s) && Allowed(s, Exec(Address(registered))) && s.tab.fibers[s.toexec[0]].connecting
    ensures var x := s.toexec[0];
            var s1 := HaveAddress(Pop(s), x);
            && s1.tab.fibers[x] == s.tab.fibers[x].(connecting := false, wtoken := false, timedOut := 0)
            && s1.toexec == s.toexec[1..] && s1.results == s.results && s1.tab.free == s.tab.free && CanStep(s1, x)
            && Step(s, Exec(Address(registered)), oracle) == (if registered then Done(s1, 0) else StepInto(s1, x, oracle, 0))
            && (registered ==> Settled(s1) && Step(s1, TimedOut(x, rearmed), oracle) == Done(s1, 0))
  {
    var x := s.toexec[0];
    AddressCanStep(s, Address(registered));
    assert SlotOk(s.tab, x) && SlotQuiet(s.tab, x);
    AliveIsNotNext(s.tab, x);
    QueuesDoNotMatter(s, Pop(s));
    PutSettled(Pop(s), x, HaveAddress(Pop(s), x).tab.fibers[x]);
    hide StepInto;
  }
}
