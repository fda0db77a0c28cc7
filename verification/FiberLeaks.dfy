// What becomes of every slot: which ones leak, and what a lost slot does to the links between parents
// and children.
module FiberLeaks {
  import opened Wrappers
  import opened Sequences
  import opened FiberTable
  import opened FiberState
  import opened FiberSpec
  import opened FiberSched
  import opened FiberRuns
  import opened FiberParked
  import opened FiberLoss

  // ---------- every slot is accounted for ----------

  datatype Fate = Free | Lost | Living | Waiting(parent: nat) | Abandoned

  function FateOf(t: Table, i: nat): Fate
    requires i < |t.fibers|
  {
    if i in t.free then Free
    else if i in t.lost then Lost
    else if Alive(t, i) then Living
    else if t.fibers[i].parent.Some? then Waiting(t.fibers[i].parent.value)
    else Abandoned
  }

  ghost predicate NobodysChild(t: Table, i: nat) {
    forall p: nat :: p < |t.fibers| ==> i !in t.fibers[p].children
  }

  // Main result: in every run a slot is free once, lost, holds a living fiber, holds a closed one that
  // its living parent has still to reap, or was abandoned; and only a lost slot with a timer token that
  // is still held can ever come back from the last or the second.
  lemma SlotsAccounted(events: seq<Event>, s: State, i: nat)
    requires Reaches(events, s) && i < |s.tab.fibers|
    ensures var t := s.tab;
            match FateOf(t, i)
            case Free => !Alive(t, i) && NobodysChild(t, i) && multiset(t.free)[i] == 1 && i !in t.lost
            case Lost => !Alive(t, i) && NobodysChild(t, i) && (!t.fibers[i].wtoken ==> Leaked(s, i))
            case Living => !Vacant(t, i)
            case Waiting(p) => p < |t.fibers| && Alive(t, p) && multiset(t.fibers[p].children)[i] == 1 && t.fibers[i].state.Closed?
            case Abandoned => !Alive(t, i) && NobodysChild(t, i) && Leaked(s, i)
  {
    EveryRunIsSettled(events, s);
    SlotTableSound(events, s, i);
    var t := s.tab;
    assert SlotOk(t, i) && SlotQuiet(t, i);
    NoDupCounts(t.free, i);
    forall p: nat | p < |t.fibers| && t.fibers[i].parent != Some(p) ensures i !in t.fibers[p].children {
      ChildOnce(t, i, p);
    }
  }

  // ---------- which steps leak ----------

  // A refused listener loses a slot exactly when one is free.
  lemma RefusalLosesIff(t: Table)
    requires Inv(t)
    ensures LoseSlot(t) == t <==> t.free == []
    ensures t.free != [] ==> LoseSlot(t).lost == t.lost + {t.free[0]} && t.free[0] !in t.lost && !Alive(t, t.free[0])
  {
    NextSlotIsFree(t);
  }

  // A lookup leaks its slot exactly when it fails and no timer could be armed.
  lemma LookupLeaksIff(s: State, parent: Option<nat>, armed: bool, timeout: nat, ok: bool)
    requires Inv(s.tab) && (parent.Some? ==> parent.value < |s.tab.fibers| && parent.value != NextSlot(s.tab))
    ensures Leaked(ResolveFiber(s, parent, armed, timeout, ok), NextSlot(s.tab)) <==> !ok && !armed
  {
    NextSlotIsFree(s.tab);
    PlaceKeepsFree(s.tab, NewFiber(true, true, parent, s.tab.births));
  }

  // A timer leaves a fiber that nothing starts exactly when it could not be armed.
  lemma TimerIdlesIff(s: State, resp: Resp, armed: bool)
    requires Settled(s) && NextSlot(s.tab) !in s.toexec
    ensures Idle(FiberTimer(s, armed), NextSlot(s.tab)) <==> !armed
    ensures Idle(ResponseTimer(s, resp, armed), NextSlot(s.tab)) <==> !armed
  {
    NextSlotIsFree(s.tab);
    EnrollKeepsGood(s, false, false, None);
  }

  // ---------- the links, read without knowing which slots are lost ----------

  ghost predicate Linked(t: Table, i: nat, p: nat)
    requires i < |t.fibers| && p < |t.fibers|
  {
    multiset(t.fibers[p].children)[i] == if i !in t.free && t.fibers[i].parent == Some(p) then 1 else 0
  }

  // Every slot off the free list is a child of its parent once, and of nobody else.
  ghost predicate PlainlyLinked(t: Table) {
    forall i: nat, p: nat :: i < |t.fibers| && p < |t.fibers| ==> Linked(t, i, p)
  }

  // That holds exactly when no lost slot still names a parent.
  lemma PlainlyLinkedIff(s: State)
    requires Settled(s)
    ensures PlainlyLinked(s.tab) <==> forall i: nat :: i in s.tab.lost ==> s.tab.fibers[i].parent.None?
  {
    var t := s.tab;
    if PlainlyLinked(t) {
      forall i: nat | i in t.lost ensures t.fibers[i].parent.None? {
        assert SlotOk(t, i);
        if t.fibers[i].parent.Some? {
          var p := t.fibers[i].parent.value;
          assert Linked(t, i, p);
          ChildOnce(t, i, p);
          assert false;
        }
      }
    }
    if forall i: nat :: i in t.lost ==> t.fibers[i].parent.None? {
      forall i: nat, p: nat | i < |t.fibers| && p < |t.fibers| ensures Linked(t, i, p) {
        ChildOnce(t, i, p);
      }
    }
  }

  // So a refused listener breaks it exactly when the slot it takes held a child before.
  lemma RefusalUnlinksIff(s: State)
    requires Settled(s) && PlainlyLinked(s.tab) && s.tab.free != []
    ensures s.tab.free[0] < |s.tab.fibers|
    ensures PlainlyLinked(Refuse(s).tab) <==> s.tab.fibers[s.tab.free[0]].parent.None?
  {
    RefuseKeeps(s, -1);
    PlainlyLinkedIff(s);
    PlainlyLinkedIff(Refuse(s));
    RefusalLosesIff(s.tab);
    assert s.tab.free[0] in s.tab.free;
  }

  // ---------- a run that gets there ----------

  // The child returns, and its parent reaps it.
  function ReturnThenReap(k: nat): Burst {
    if k == 0 then Burst([], Return(None)) else Burst([GetChild], Io(false))
  }

  // A fiber starts a child, which returns and is reaped; then a listener is refused. The child's slot is
  // off the free list and names its parent, who does not know it.
  lemma ReapedSlotIsLost() returns (events: seq<Event>, s: State)
    ensures Reaches(events, s) && |s.tab.fibers| == 2 && s.tab.free == [] && s.tab.lost == {1}
    ensures s.tab.fibers[1].parent == Some(0) && s.tab.fibers[0].children == [] && !PlainlyLinked(s.tab)
    ensures events == [NewFiberEvent] + [Exec(NoAddress)] + [Exec(NoAddress)] + [RefusedListenerEvent]
  {
    var s2 := RunTwo();
    var s3 := ChildReturns(s2);
    var start := [NewFiberEvent] + [Exec(NoAddress)];
    Extend(start, s2, Exec(NoAddress), ReturnThenReap, s3, 2);
    s := ListenerRefused(s3);
    Extend(start + [Exec(NoAddress)], s3, RefusedListenerEvent, ReturnThenReap, s, 0);
    events := start + [Exec(NoAddress)] + [RefusedListenerEvent];
    hide Reaches, Step;
    PlainlyLinkedIff(s);
  }

  lemma ListenerRefused(s: State) returns (s': State)
    requires Settled(s) && |s.tab.fibers| == 2 && s.tab.free == [1] && s.tab.lost == {}
    ensures Allowed(s, RefusedListenerEvent) && Step(s, RefusedListenerEvent, ReturnThenReap) == Done(s', 0) && Settled(s')
    ensures s'.tab.fibers == s.tab.fibers && s'.tab.free == [] && s'.tab.lost == {1}
  {
    s' := Refuse(s);
    RefuseKeeps(s, -1);
  }

  lemma ChildReturns(s: State) returns (s': State)
    requires Looks(s, [Suspended(0, None, [1], None, AtIo, 0), NewFiber(true, true, Some(0), 1)], [1], [0, 0])
    requires s.tab.made == 1 && s.tab.lost == {}
    ensures Allowed(s, Exec(NoAddress)) && Step(s, Exec(NoAddress), ReturnThenReap) == Done(s', 2) && Settled(s')
    ensures |s'.tab.fibers| == 2 && s'.tab.free == [1] && s'.tab.lost == {}
    ensures s'.tab.fibers[1].parent == Some(0) && s'.tab.fibers[0].children == []
  {
    ExecIsStep(s, ReturnThenReap);
    hide Step, CanStep;
    var s1 := ChildCloses(Pop(s));
    s' := ParentReaps(s1);
  }

  lemma ChildCloses(s0: State) returns (s3: State)
    requires CanStep(s0, 1) && s0.tab.fibers == [Suspended(0, None, [1], None, AtIo, 0), NewFiber(true, true, Some(0), 1)]
    requires s0.tab.free == [] && s0.tab.lost == {} && s0.tab.stacks == [] && s0.tab.births == 2 && s0.tab.made == 1
    ensures CanStep(s3, 0) && StepInto(s0, 1, ReturnThenReap, 0) == StepInto(s3, 0, ReturnThenReap, 1)
    ensures |s3.tab.fibers| == 2 && s3.tab.free == [] && s3.tab.lost == {}
    ensures s3.tab.fibers[0] == Suspended(0, None, [1], None, AtIo, 0)
    ensures var f := s3.tab.fibers[1]; f.state.Closed? && f.parent == Some(0) && f.result.None?
  {
    WakeUpScene(s0, 1);
    var s1 := WakeUp(s0, 1);
    assert s1.tab.fibers[1] == Suspended(1, Some(0), [], None, Running, 1);
    assert RunOps(s1, 1, []) == (s1, false);
    var s2 := EndBurst(s1, 1, Return(None)).value;
    assert Body(s0, 1, ReturnThenReap(0)) == Some(s2);
    CleanStackBack(s2, 1);
    s3 := CleanStack(s2, 1);
    ParentCanStep(s3, 1);
    assert StepInto(s0, 1, ReturnThenReap, 0) == SteppedOut(s2, 1, ReturnThenReap, 1) == StepInto(s3, 0, ReturnThenReap, 1);
  }

  lemma ParentReaps(s: State) returns (s': State)
    requires CanStep(s, 0) && |s.tab.fibers| == 2 && s.tab.free == [] && s.tab.lost == {}
    requires s.tab.fibers[0] == Suspended(0, None, [1], None, AtIo, 0)
    requires var f := s.tab.fibers[1]; f.state.Closed? && f.parent == Some(0) && f.result.None?
    ensures StepInto(s, 0, ReturnThenReap, 1) == Done(s', 2) && Settled(s')
    ensures |s'.tab.fibers| == 2 && s'.tab.free == [1] && s'.tab.lost == {}
    ensures s'.tab.fibers[1].parent == Some(0) && s'.tab.fibers[0].children == []
  {
    WakeUpScene(s, 0);
    var s1 := WakeUp(s, 0);
    var s2 := ReapsOnly(s1);
    assert [GetChild][1..] == [];
    assert RunOps(s1, 0, [GetChild]) == RunOps(s2, 0, []) == (s2, false);
    var s3 := EndBurst(s2, 0, Io(false)).value;
    assert Body(s, 0, ReturnThenReap(1)) == Some(s3);
    CleanStackBack(s3, 0);
    RepublishQuiet(s3, 0);
    s' := s3;
    assert SteppedOut(s3, 0, ReturnThenReap, 2) == Done(s', 2);
  }

  lemma ReapsOnly(s: State) returns (s': State)
    requires Scene(s, 0) && |s.tab.fibers| == 2 && s.tab.free == [] && s.tab.lost == {} && s.tab.fibers[0].children == [1]
    requires var f := s.tab.fibers[1]; f.state.Closed? && f.parent == Some(0) && f.result.None?
    ensures ChildIter(s, 0) == (s', Empty) && Scene(s', 0)
    ensures |s'.tab.fibers| == 2 && s'.tab.free == [1] && s'.tab.lost == {}
    ensures s'.tab.fibers[0] == s.tab.fibers[0].(children := []) && s'.tab.fibers[1].parent == Some(0)
  {
    SceneFacts(s, 0);
    TakeChildScene(s, 0, 0);
    s' := TakeChild(s, 0, 0);
    assert FirstReady(s.tab, [1], 0) == 0;
    assert SwapRemoveFront([1], 0) == [];
    assert s'.tab.fibers[0].children == [];
    assert ChildIter(s', 0) == (s', Empty);
  }
}
