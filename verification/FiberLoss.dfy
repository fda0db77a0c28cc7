// Where responses can be lost: a fiber that still has a response pending is switched into because
// one of its own children gave up control, and sends again.
module FiberLoss {
  import opened Wrappers
  import opened FiberTable
  import opened FiberState
  import opened FiberSpec
  import opened FiberSched
  import opened FiberRuns

  function Suspended(stack: nat, parent: Option<nat>, children: seq<nat>, result: Option<Resp>, wait: Wait, birth: nat): Fiber {
    Fiber(Stacked, true, false, true, Some(stack), parent, children, result, false, false, 0, wait, birth)
  }

  // The parts of the state that matter here.
  ghost predicate Looks(s: State, fibers: seq<Fiber>, toexec: seq<nat>, dropped: seq<nat>) {
    && Settled(s) && !s.log.joined
    && s.tab.fibers == fibers && s.tab.free == [] && s.tab.lost == {} && s.tab.stacks == [] && s.tab.births == |fibers| && s.tab.made <= |fibers|
    && s.toexec == toexec && s.log.dropped == dropped
  }

  function SpawnThenWait(k: nat): Burst {
    Burst([Spawn(true, true)], Io(false))
  }

  function SpawnThenSend(k: nat): Burst {
    if k == 0 then Burst([Spawn(true, true)], Chunk(7)) else Burst([], Io(false))
  }

  function SendTwice(k: nat): Burst {
    if k == 0 then Burst([], Chunk(8)) else if k == 1 then Burst([], Chunk(9)) else Burst([], Io(false))
  }

  lemma SpawnOnly(s: State, pos: nat)
    requires Scene(s, pos)
    ensures Scene(SpawnFiber(s, Some(pos), true), pos) && RunOps(s, pos, [Spawn(true, true)]) == (SpawnFiber(s, Some(pos), true), false)
  {
    SceneSpawn(s, pos, true, true);
    assert [Spawn(true, true)][1..] == [];
  }

  lemma FirstFiber(s: State) returns (s': State)
    requires s == Start() && Settled(s)
    ensures Step(s, NewFiberEvent, SpawnThenWait) == Done(s', 0)
    ensures Looks(s', [NewFiber(true, true, None, 0)], [0], [0]) && s'.tab.made == 0
  {
    s' := Step(s, NewFiberEvent, SpawnThenWait).s;
  }

  // The first fiber starts a child and waits for its socket.
  lemma FirstRuns(s: State) returns (s': State)
    requires Looks(s, [NewFiber(true, true, None, 0)], [0], [0]) && s.tab.made == 0
    ensures Allowed(s, Exec(NoAddress)) && Step(s, Exec(NoAddress), SpawnThenWait) == Done(s', 1)
    ensures Looks(s', [Suspended(0, None, [1], None, AtIo, 0), NewFiber(true, true, Some(0), 1)], [1], [0, 0])
    ensures s'.tab.made == 1
  {
    var s0 := Pop(s);
    QueuesDoNotMatter(s, s0);
    WakeUpScene(s0, 0);
    var s1 := WakeUp(s0, 0);
    assert s1.tab.fibers == [Suspended(0, None, [], None, Running, 0)];
    SpawnOnly(s1, 0);
    var s2 := SpawnFiber(s1, Some(0), true);
    assert [] + [1] == [1];
    assert s2.tab.fibers == [Suspended(0, None, [1], None, Running, 0), NewFiber(true, true, Some(0), 1)];
    var s3 := EndBurst(s2, 0, Io(false)).value;
    assert Body(s0, 0, SpawnThenWait(0)) == Some(s3);
    assert s3.tab.fibers == [Suspended(0, None, [1], None, AtIo, 0), NewFiber(true, true, Some(0), 1)];
    assert SteppedOut(s3, 0, SpawnThenWait, 1) == Done(s3, 1);
    assert StepInto(s0, 0, SpawnThenWait, 0) == Done(s3, 1);
    s' := s3;
  }

  // Its child starts a child too and sends a response; the first fiber, still waiting for its socket,
  // is switched into but does not take it.
  lemma SecondSends(s: State) returns (s': State)
    requires Looks(s, [Suspended(0, None, [1], None, AtIo, 0), NewFiber(true, true, Some(0), 1)], [1], [0, 0])
    requires s.tab.made == 1
    ensures Allowed(s, Exec(NoAddress)) && Step(s, Exec(NoAddress), SpawnThenSend) == Done(s', 2)
    ensures Looks(s', [Suspended(0, None, [1], None, AtIo, 0), Suspended(1, Some(0), [2], Some(7), AtChunk, 1),
                       NewFiber(true, true, Some(1), 2)], [2], [0, 0, 0])
    ensures s'.tab.made == 2
  {
    ExecIsStep(s, SpawnThenSend);
    hide Step, CanStep;
    var s3 := ChildSpawnsAndSends(Pop(s));
    WaitsAgain(s3, s3.tab.fibers, SpawnThenSend, 1);
    s' := StepInto(s3, 0, SpawnThenSend, 1).s;
  }

  lemma ChildSpawnsAndSends(s0: State) returns (s3: State)
    requires CanStep(s0, 1) && !s0.log.joined && s0.log.dropped == [0, 0] && s0.toexec == []
    requires s0.tab.fibers == [Suspended(0, None, [1], None, AtIo, 0), NewFiber(true, true, Some(0), 1)]
    requires s0.tab.free == [] && s0.tab.lost == {} && s0.tab.stacks == [] && s0.tab.births == 2 && s0.tab.made == 1
    ensures CanStep(s3, 0) && StepInto(s0, 1, SpawnThenSend, 0) == StepInto(s3, 0, SpawnThenSend, 1)
    ensures s3.tab.fibers == [Suspended(0, None, [1], None, AtIo, 0), Suspended(1, Some(0), [2], Some(7), AtChunk, 1),
                              NewFiber(true, true, Some(1), 2)]
    ensures s3.tab.free == [] && s3.tab.lost == {} && s3.tab.stacks == [] && s3.tab.births == 3 && s3.tab.made == 2
    ensures !s3.log.joined && s3.log.dropped == [0, 0, 0] && s3.toexec == [2]
  {
    var g := Suspended(0, None, [1], None, AtIo, 0);
    WakeUpScene(s0, 1);
    var s1 := WakeUp(s0, 1);
    assert s1.tab.fibers == [g, Suspended(1, Some(0), [], None, Running, 1)];
    SpawnOnly(s1, 1);
    var s2 := SpawnFiber(s1, Some(1), true);
    assert [] + [2] == [2];
    assert s2.tab.fibers == [g, Suspended(1, Some(0), [2], None, Running, 1), NewFiber(true, true, Some(1), 2)];
    s3 := EndBurst(s2, 1, Chunk(7)).value;
    assert Body(s0, 1, SpawnThenSend(0)) == Some(s3);
    var fs := [g, Suspended(1, Some(0), [2], Some(7), AtChunk, 1), NewFiber(true, true, Some(1), 2)];
    assert s3.tab.fibers == fs;
    CleanStackBack(s3, 1);
    ParentCanStep(s3, 1);
    assert SteppedOut(s3, 1, SpawnThenSend, 1) == StepInto(s3, 0, SpawnThenSend, 1);
    assert StepInto(s0, 1, SpawnThenSend, 0) == SteppedOut(s3, 1, SpawnThenSend, 1);
  }

  // The first fiber is switched into while it waits for its socket, and waits again.
  lemma WaitsAgain(s: State, fs: seq<Fiber>, oracle: nat -> Burst, k: nat)
    requires CanStep(s, 0) && s.tab.fibers == fs && |fs| > 0 && fs[0] == Suspended(0, None, [1], None, AtIo, 0)
    requires oracle(k) == Burst([], Io(false))
    ensures StepInto(s, 0, oracle, k).Done? && StepInto(s, 0, oracle, k).next == k + 1
    ensures var s' := StepInto(s, 0, oracle, k).s;
            && s'.tab.fibers == fs && s'.tab == s.tab.(fibers := fs) && s'.log == s.log && s'.toexec == s.toexec
  {
    WakeUpScene(s, 0);
    var s1 := WakeUp(s, 0);
    assert s1.tab.fibers[0] == Suspended(0, None, [1], None, Running, 0);
    var s2 := EndBurst(s1, 0, Io(false)).value;
    assert RunOps(s1, 0, []) == (s1, false);
    assert Body(s, 0, oracle(k)) == Some(s2);
    assert s2.tab.fibers[0] == fs[0];
    assert s2.tab.fibers == fs;
    assert SteppedOut(s2, 0, oracle, k + 1) == Done(s2, k + 1);
  }

  // The grandchild sends, and the middle fiber is switched into with its response still pending.
  lemma GrandchildSends(s0: State) returns (s2: State)
    requires Settled(s0) && !s0.log.joined && s0.log.dropped == [0, 0, 0] && s0.tab.stacks == [] && s0.tab.made == 2
    requires s0.tab.fibers == [Suspended(0, None, [1], None, AtIo, 0), Suspended(1, Some(0), [2], Some(7), AtChunk, 1),
                               NewFiber(true, true, Some(1), 2)]
    ensures CanStep(s0, 2) && CanStep(s2, 1) && StepInto(s0, 2, SendTwice, 0) == StepInto(s2, 1, SendTwice, 1)
    ensures s2.tab.fibers == s0.tab.fibers[2 := Suspended(2, Some(1), [], Some(8), AtChunk, 2)]
    ensures !s2.log.joined && s2.log.dropped == [0, 0, 0]
  {
    var g := Suspended(0, None, [1], None, AtIo, 0);
    var p := Suspended(1, Some(0), [2], Some(7), AtChunk, 1);
    WakeUpScene(s0, 2);
    var s1 := WakeUp(s0, 2);
    assert s1.tab.fibers == [g, p, Suspended(2, Some(1), [], None, Running, 2)];
    assert RunOps(s1, 2, []) == (s1, false);
    s2 := EndBurst(s1, 2, Chunk(8)).value;
    assert Body(s0, 2, SendTwice(0)) == Some(s2);
    var c := Suspended(2, Some(1), [], Some(8), AtChunk, 2);
    assert s2.tab.fibers == [g, p, c];
    CleanStackBack(s2, 2);
    ParentCanStep(s2, 2);
    assert StepInto(s0, 2, SendTwice, 0) == SteppedOut(s2, 2, SendTwice, 1) == StepInto(s2, 1, SendTwice, 1);
  }

  // The middle fiber sends another response, and the first is gone.
  lemma MiddleOverwrites(s2: State) returns (s': State)
    requires CanStep(s2, 1) && !s2.log.joined && s2.log.dropped == [0, 0, 0]
    requires s2.tab.fibers == [Suspended(0, None, [1], None, AtIo, 0), Suspended(1, Some(0), [2], Some(7), AtChunk, 1),
                               Suspended(2, Some(1), [], Some(8), AtChunk, 2)]
    ensures StepInto(s2, 1, SendTwice, 1) == Done(s', 3)
    ensures !s'.log.joined && s'.log.dropped == [0, 1, 0]
    ensures |s'.tab.fibers| == 3 && s'.tab.fibers[1].result == Some(9)
  {
    var g := Suspended(0, None, [1], None, AtIo, 0);
    var p := Suspended(1, Some(0), [2], Some(7), AtChunk, 1);
    var c := Suspended(2, Some(1), [], Some(8), AtChunk, 2);
    WakeUpScene(s2, 1);
    var s3 := WakeUp(s2, 1);
    assert s3.tab.fibers == [g, p.(wait := Running), c];
    assert RunOps(s3, 1, []) == (s3, false);
    var s4 := EndBurst(s3, 1, Chunk(9)).value;
    assert Body(s2, 1, SendTwice(1)) == Some(s4);
    assert s4.tab.fibers == [g, p.(result := Some(9)), c] && s4.log.dropped == [0, 1, 0];
    CleanStackBack(s4, 1);
    ParentCanStep(s4, 1);
    WaitsAgain(s4, s4.tab.fibers, SendTwice, 2);
    assert StepInto(s2, 1, SendTwice, 1) == SteppedOut(s4, 1, SendTwice, 2) == StepInto(s4, 0, SendTwice, 2);
    s' := StepInto(s4, 0, SendTwice, 2).s;
  }

  lemma ThirdOverwrites(s: State) returns (s': State)
    requires Looks(s, [Suspended(0, None, [1], None, AtIo, 0), Suspended(1, Some(0), [2], Some(7), AtChunk, 1),
                       NewFiber(true, true, Some(1), 2)], [2], [0, 0, 0])
    requires s.tab.made == 2
    ensures Allowed(s, Exec(NoAddress)) && Step(s, Exec(NoAddress), SendTwice) == Done(s', 3)
    ensures !s'.log.joined && s'.log.dropped == [0, 1, 0]
    ensures |s'.tab.fibers| == 3 && s'.tab.fibers[1].result == Some(9)
  {
    hide StepInto, CanStep, Step;
    ExecIsStep(s, SendTwice);
    var s2 := GrandchildSends(Pop(s));
    s' := MiddleOverwrites(s2);
  }

  lemma RunTwo() returns (s: State)
    ensures Reaches([NewFiberEvent] + [Exec(NoAddress)], s) && s.tab.made == 1
    ensures Looks(s, [Suspended(0, None, [1], None, AtIo, 0), NewFiber(true, true, Some(0), 1)], [1], [0, 0])
  {
    StartSettled();
    var s1 := FirstFiber(Start());
    Extend([], Start(), NewFiberEvent, SpawnThenWait, s1, 0);
    assert [] + [NewFiberEvent] == [NewFiberEvent];
    s := FirstRuns(s1);
    Extend([NewFiberEvent], s1, Exec(NoAddress), SpawnThenWait, s, 1);
  }

  lemma RunThree() returns (s: State)
    ensures Reaches([NewFiberEvent] + [Exec(NoAddress)] + [Exec(NoAddress)], s) && s.tab.made == 2
    ensures Looks(s, [Suspended(0, None, [1], None, AtIo, 0), Suspended(1, Some(0), [2], Some(7), AtChunk, 1),
                      NewFiber(true, true, Some(1), 2)], [2], [0, 0, 0])
  {
    var s2 := RunTwo();
    s := SecondSends(s2);
    Extend([NewFiberEvent] + [Exec(NoAddress)], s2, Exec(NoAddress), SpawnThenSend, s, 2);
  }

  // A disciplined run without join_main or cancelled timers that loses a response.
  lemma ResponseCanBeLost() returns (events: seq<Event>, s: State)
    ensures Reaches(events, s) && !s.log.joined && |s.log.dropped| == 3 && s.log.dropped[1] == 1
    ensures events == [NewFiberEvent] + [Exec(NoAddress)] + [Exec(NoAddress)] + [Exec(NoAddress)]
  {
    hide Reaches, Step, Settled, Allowed;
    var s3 := RunThree();
    s := ThirdOverwrites(s3);
    var before := [NewFiberEvent] + [Exec(NoAddress)] + [Exec(NoAddress)];
    Extend(before, s3, Exec(NoAddress), SendTwice, s, 3);
    events := before + [Exec(NoAddress)];
  }
}
