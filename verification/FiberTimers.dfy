// Giving up a timer: exactly when that is safe, and a run in which it gives away a living fiber's slot.
module FiberTimers {
  import opened Wrappers
  import opened Sequences
  import opened FiberTable
  import opened FiberState
  import opened FiberSpec
  import opened FiberSched
  import opened FiberRuns
  import opened FiberLoss

  // Giving up a timer keeps the state sound exactly when its token is no longer held, or its fiber has
  // no parent, holds its slot and has not started, or the slot was lost, which gives it back. For a
  // living fiber that is: has not started and has no parent.
  lemma CancelTimerSettledIff(s: State, pos: nat)
    requires Settled(s) && pos < |s.tab.fibers|
    ensures Settled(CancelTimer(s, pos)) <==> (s.tab.fibers[pos].wtoken ==> Cancellable(s.tab, pos))
    ensures Alive(s.tab, pos) ==>
      (Cancellable(s.tab, pos) <==> s.tab.fibers[pos].wait.NotStarted? && s.tab.fibers[pos].parent.None?)
  {
    assert SlotOk(s.tab, pos) && SlotQuiet(s.tab, pos);
    var f := s.tab.fibers[pos];
    if !f.wtoken || Cancellable(s.tab, pos) {
      CancelTimerSettled(s, pos);
    } else if pos in s.tab.free {
      FreedTwice(s.tab.free, pos);
    } else if f.parent.Some? {
      FreedChild(s, pos);
    } else {
      StartedTimerFreesLiving(s, pos);
      assert !SlotOk(CancelTimer(s, pos).tab, pos);
    }
  }

  lemma FreedTwice(free: seq<nat>, pos: nat)
    requires pos in free
    ensures !NoDup(free + [pos])
  {
    var k: nat :| k < |free| && free[k] == pos;
    assert !Differ(free + [pos], k, |free|);
  }

  lemma FreedChild(s: State, pos: nat)
    requires Settled(s) && pos < |s.tab.fibers| && !Vacant(s.tab, pos) && s.tab.fibers[pos].parent.Some?
    requires s.tab.fibers[pos].wtoken
    ensures !Settled(CancelTimer(s, pos))
  {
    var p := s.tab.fibers[pos].parent.value;
    assert SlotOk(s.tab, pos) && ParentOk(s.tab, pos, p);
    var t' := CancelTimer(s, pos).tab;
    assert pos in t'.fibers[p].children && !ChildOk(t', p, pos);
    assert !SlotOk(t', p);
  }

  // The timer of a fiber that has started: its slot goes to the free list while it is alive and keeps
  // its stack, and is the next to be overwritten if the list was empty.
  lemma StartedTimerFreesLiving(s: State, pos: nat)
    requires Settled(s) && Alive(s.tab, pos) && s.tab.fibers[pos].wtoken && !s.tab.fibers[pos].wait.NotStarted?
    ensures var t := CancelTimer(s, pos).tab;
            Alive(t, pos) && pos in t.free && t.fibers[pos].stack.Some? && (s.tab.free == [] ==> NextSlot(t) == pos)
  {
    assert SlotOk(s.tab, pos) && SlotQuiet(s.tab, pos);
  }

  // ---------- a run that gets there ----------

  function WaitsForSocket(k: nat): Burst {
    Burst([], Io(false))
  }

  function ReturnsAtOnce(k: nat): Burst {
    Burst([], Return(None))
  }

  function SendAtOnce(k: nat): Burst {
    Burst([], Chunk(5))
  }

  // A fiber waits for its socket, which is signalled twice; the first signal lets it return, so that the
  // entry of the second is left behind when a timer's fiber gets its slot. The entry starts that fiber
  // before the timer goes off, and it sends. Its timer reference still holds the token.
  lemma TimerCanGiveAwayLivingSlot() returns (events: seq<Event>, s: State)
    ensures Reaches(events, s) && Settled(s)
    ensures events == [NewFiberEvent] + [Exec(NoAddress)] + [Signal(0)] + [Signal(0)] + [Exec(NoAddress)]
                      + [NewFiberTimer(true)] + [Exec(NoAddress)]
    ensures Alive(s.tab, 0) && s.tab.fibers[0].wtoken && s.tab.fibers[0].wait.AtChunk? && s.tab.fibers[0].birth == 1
    ensures !Settled(CancelTimer(s, 0))
    ensures Alive(CancelTimer(s, 0).tab, 0) && CancelTimer(s, 0).tab.free == [0] && NextSlot(CancelTimer(s, 0).tab) == 0
  {
    hide Reaches, Step, Settled, CancelTimer;
    var s4 := TwiceSignalled();
    var run := [NewFiberEvent] + [Exec(NoAddress)] + [Signal(0)] + [Signal(0)];
    var s5 := LeavesEntry(s4);
    Extend(run, s4, Exec(NoAddress), ReturnsAtOnce, s5, 1);
    var s6 := TimerReuses(s5);
    Extend(run + [Exec(NoAddress)], s5, NewFiberTimer(true), SendAtOnce, s6, 0);
    s := StartsEarly(s6);
    Extend(run + [Exec(NoAddress)] + [NewFiberTimer(true)], s6, Exec(NoAddress), SendAtOnce, s, 1);
    events := run + [Exec(NoAddress)] + [NewFiberTimer(true)] + [Exec(NoAddress)];
    CancelTimerSettledIff(s, 0);
    StartedTimerFreesLiving(s, 0);
    CancelledFree(s, 0);
  }

  lemma CancelledFree(s: State, pos: nat)
    requires Good(s) && pos < |s.tab.fibers| && s.tab.fibers[pos].wtoken
    ensures CancelTimer(s, pos).tab.free == s.tab.free + [pos]
  {
  }

  lemma TwiceSignalled() returns (s: State)
    ensures Reaches([NewFiberEvent] + [Exec(NoAddress)] + [Signal(0)] + [Signal(0)], s) && Settled(s)
    ensures s.toexec == [0, 0] && s.tab.free == [] && s.tab.lost == {} && s.tab.births == 1
    ensures s.tab.fibers == [Suspended(0, None, [], None, AtIo, 0)]
  {
    hide Reaches, Step, Settled;
    var s1 := FiberStarts();
    var s2 := FiberWaits(s1);
    Extend([NewFiberEvent], s1, Exec(NoAddress), WaitsForSocket, s2, 1);
    var s3 := Signalled(s2);
    Extend([NewFiberEvent] + [Exec(NoAddress)], s2, Signal(0), SendAtOnce, s3, 0);
    s := Signalled(s3);
    Extend([NewFiberEvent] + [Exec(NoAddress)] + [Signal(0)], s3, Signal(0), SendAtOnce, s, 0);
  }

  lemma FiberStarts() returns (s: State)
    ensures Reaches([NewFiberEvent], s) && Settled(s) && s.toexec == [0] && s.tab.free == [] && s.tab.lost == {}
    ensures s.tab.fibers == [NewFiber(true, true, None, 0)] && s.tab.births == 1 && s.tab.stacks == [] && s.tab.made == 0
  {
    StartSettled();
    var s0 := Start();
    s := Step(s0, NewFiberEvent, SendAtOnce).s;
    Extend([], s0, NewFiberEvent, SendAtOnce, s, 0);
    assert [] + [NewFiberEvent] == [NewFiberEvent];
  }

  lemma FiberWaits(s: State) returns (s': State)
    requires Settled(s) && s.toexec == [0] && s.tab.free == [] && s.tab.lost == {}
    requires s.tab.fibers == [NewFiber(true, true, None, 0)] && s.tab.births == 1 && s.tab.stacks == [] && s.tab.made == 0
    ensures Allowed(s, Exec(NoAddress)) && Step(s, Exec(NoAddress), WaitsForSocket) == Done(s', 1) && Settled(s')
    ensures s'.toexec == [] && s'.tab.free == [] && s'.tab.lost == {} && s'.tab.births == 1
    ensures s'.tab.fibers == [Suspended(0, None, [], None, AtIo, 0)]
  {
    ExecIsStep(s, WaitsForSocket);
    var s1 := Pop(s);
    WakeUpScene(s1, 0);
    var s2 := WakeUp(s1, 0);
    assert RunOps(s2, 0, []) == (s2, false);
    var s3 := EndBurst(s2, 0, Io(false)).value;
    assert Body(s1, 0, WaitsForSocket(0)) == Some(s3);
    CleanStackBack(s3, 0);
    RepublishQuiet(s3, 0);
    s' := s3;
    assert SteppedOut(s3, 0, WaitsForSocket, 1) == Done(s', 1);
  }

  lemma Signalled(s: State) returns (s': State)
    requires Settled(s) && |s.tab.fibers| > 0
    ensures Allowed(s, Signal(0)) && Step(s, Signal(0), SendAtOnce) == Done(s', 0)
    ensures Settled(s') && s'.tab == s.tab && s'.toexec == s.toexec + [0]
  {
    s' := s.(toexec := s.toexec + [0]);
    QueuesDoNotMatter(s, s');
  }

  // The fiber returns while its slot is still in the queue.
  lemma LeavesEntry(s: State) returns (s': State)
    requires Settled(s) && s.toexec == [0, 0] && s.tab.free == [] && s.tab.lost == {} && s.tab.births == 1
    requires s.tab.fibers == [Suspended(0, None, [], None, AtIo, 0)]
    ensures Allowed(s, Exec(NoAddress)) && Step(s, Exec(NoAddress), ReturnsAtOnce) == Done(s', 1) && Settled(s')
    ensures s'.toexec == [0] && |s'.tab.fibers| == 1 && s'.tab.free == [0] && s'.tab.lost == {} && s'.tab.births == 1
  {
    ExecIsStep(s, ReturnsAtOnce);
    hide Step, CanStep;
    var s4 := FiberReturns(Pop(s));
    s' := FiberRetires(s4);
  }

  lemma FiberReturns(s1: State) returns (s4: State)
    requires CanStep(s1, 0) && s1.toexec == [0] && s1.tab.free == [] && s1.tab.lost == {} && s1.tab.births == 1
    requires s1.tab.fibers == [Suspended(0, None, [], None, AtIo, 0)]
    ensures Back(s4, 0) && Quiet0(s4, 0) && CleanStack(s4, 0) == s4
    ensures StepInto(s1, 0, ReturnsAtOnce, 0) == SteppedOut(s4, 0, ReturnsAtOnce, 1)
    ensures s4.toexec == [0] && s4.tab.free == [] && s4.tab.lost == {} && s4.tab.births == 1 && |s4.tab.fibers| == 1
    ensures var f := s4.tab.fibers[0]; f.parent.None? && f.state.Closed? && f.result.None? && f.birth == 0
  {
    WakeUpScene(s1, 0);
    var s2 := WakeUp(s1, 0);
    assert RunOps(s2, 0, []) == (s2, false);
    var s3 := EndBurst(s2, 0, Return(None)).value;
    assert Body(s1, 0, ReturnsAtOnce(0)) == Some(s3);
    CleanStackBack(s3, 0);
    s4 := CleanStack(s3, 0);
    assert SteppedOut(s3, 0, ReturnsAtOnce, 1) == SteppedOut(s4, 0, ReturnsAtOnce, 1);
  }

  lemma FiberRetires(s4: State) returns (s': State)
    requires Back(s4, 0) && Quiet0(s4, 0) && CleanStack(s4, 0) == s4
    requires s4.toexec == [0] && s4.tab.free == [] && s4.tab.lost == {} && s4.tab.births == 1 && |s4.tab.fibers| == 1
    requires var f := s4.tab.fibers[0]; f.parent.None? && f.state.Closed? && f.result.None? && f.birth == 0
    ensures SteppedOut(s4, 0, ReturnsAtOnce, 1) == Done(s', 1) && Settled(s')
    ensures s'.toexec == [0] && |s'.tab.fibers| == 1 && s'.tab.free == [0] && s'.tab.lost == {} && s'.tab.births == 1
  {
    RetireQuiet(s4, 0);
    s' := Retire(s4, 0);
  }

  lemma TimerReuses(s: State) returns (s': State)
    requires Settled(s) && s.toexec == [0] && |s.tab.fibers| == 1 && s.tab.free == [0] && s.tab.births == 1
    ensures Allowed(s, NewFiberTimer(true)) && Step(s, NewFiberTimer(true), SendAtOnce) == Done(s', 0) && Settled(s')
    ensures s'.toexec == [0] && s'.tab.free == []
    ensures s'.tab.fibers == [NewFiber(true, true, None, 1).(wtoken := true)]
  {
    FiberTimerSettled(s, true);
    s' := FiberTimer(s, true);
  }

  lemma StartsEarly(s: State) returns (s': State)
    requires Settled(s) && s.toexec == [0] && s.tab.free == []
    requires s.tab.fibers == [NewFiber(true, true, None, 1).(wtoken := true)]
    ensures Allowed(s, Exec(NoAddress)) && Step(s, Exec(NoAddress), SendAtOnce) == Done(s', 1)
    ensures Settled(s') && |s'.tab.fibers| == 1 && s'.tab.free == []
    ensures var f := s'.tab.fibers[0]; f.wait.AtChunk? && f.wtoken && f.birth == 1
  {
    ExecIsStep(s, SendAtOnce);
    var s1 := Pop(s);
    WakeUpScene(s1, 0);
    var s2 := WakeUp(s1, 0);
    assert RunOps(s2, 0, []) == (s2, false);
    var s3 := EndBurst(s2, 0, Chunk(5)).value;
    assert Body(s1, 0, SendAtOnce(0)) == Some(s3);
    CleanStackBack(s3, 0);
    RepublishQuiet(s3, 0);
    s' := Republish(s3, 0);
    assert SteppedOut(s3, 0, SendAtOnce, 1) == Done(s', 1);
  }
}
