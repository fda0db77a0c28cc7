// Switching into a fiber and back: the mutual recursion of step_into and stepped_out.
module FiberSched {
  import opened Wrappers
  import opened FiberTable
  import opened FiberState
  import opened FiberSpec

  // ---------- one burst of a fiber ----------

  function Mark(s: State, pos: nat, wait: Wait): State
    requires pos < |s.tab.fibers|
  {
    Put(s, pos, s.tab.fibers[pos].(wait := wait))
  }

  // The calls of a burst; stops early if get_child has to wait.
  function RunOps(s: State, pos: nat, ops: seq<Op>): (r: (State, bool))
    requires Scene(s, pos)
    ensures Scene(r.0, pos) && Kept(s, r.0, pos)
    decreases |ops|
  {
    if ops == [] then (s, false)
    else
      match ops[0]
      case Spawn(child, schedule) =>
        SceneSpawn(s, pos, child, schedule);
        RunOps(SpawnFiber(s, ParentFor(child, pos), schedule), pos, ops[1..])
      case Resolve(child, armed, timeout, ok) =>
        SceneResolve(s, pos, child, armed, timeout, ok);
        RunOps(ResolveFiber(s, ParentFor(child, pos), armed, timeout, ok), pos, ops[1..])
      case GetChild =>
        var (s1, r) := ChildIter(s, pos);
        if r.Block? then (s1, true) else RunOps(s1, pos, ops[1..])
      case RefusedListener =>
        RefuseKeeps(s, pos);
        RunOps(Refuse(s), pos, ops[1..])
  }

  lemma SceneSpawn(s: State, pos: nat, child: bool, schedule: bool)
    requires Scene(s, pos)
    ensures var s' := SpawnFiber(s, ParentFor(child, pos), schedule); Scene(s', pos) && Kept(s, s', pos)
  {
    SceneFacts(s, pos);
    SpawnKeeps(s, ParentFor(child, pos), schedule, pos);
    assert Alive(s.tab, pos);
  }

  lemma SceneResolve(s: State, pos: nat, child: bool, armed: bool, timeout: nat, ok: bool)
    requires Scene(s, pos)
    ensures pos != NextSlot(s.tab)
    ensures var s' := ResolveFiber(s, ParentFor(child, pos), armed, timeout, ok); Scene(s', pos) && Kept(s, s', pos)
  {
    SceneFacts(s, pos);
    ResolveKeeps(s, ParentFor(child, pos), armed, timeout, ok, pos);
    assert Alive(s.tab, pos);
    AliveIsNotNext(s.tab, pos);
  }

  // Fiber `pos` has just given up control.
  ghost predicate Back(s: State, pos: nat) {
    && Good(s) && QuietBut(s.tab, pos) && pos < |s.tab.fibers| && !Vacant(s.tab, pos)
    && !s.tab.fibers[pos].wait.Running? && !s.tab.fibers[pos].wait.NotStarted?
    && (s.tab.fibers[pos].wait.Dead? ==> s.tab.fibers[pos].state.Closed?)
  }

  lemma MarkBack(s: State, pos: nat, wait: Wait)
    requires Scene(s, pos) && !wait.Running? && !wait.NotStarted? && !wait.Dead?
    ensures Back(Mark(s, pos, wait), pos) && Kept(s, Mark(s, pos, wait), pos)
  {
    SceneFacts(s, pos);
    PutKeepsGood(s, pos, s.tab.fibers[pos].(wait := wait));
    QuietAfterPut(s, pos, s.tab.fibers[pos].(wait := wait), pos);
  }

  // How a burst ends. A fiber may not return while it has children, and a fiber whose lookup failed
  // has no socket to wait for; such a burst is a breach of the discipline.
  function EndBurst(s: State, pos: nat, end: Yield): (r: Option<State>)
    requires Scene(s, pos)
    ensures r.Some? ==> Back(r.value, pos) && Kept(s, r.value, pos)
    ensures r.Some? && end.Chunk? ==> r.value.tab.fibers[pos].result == Some(end.value)
    ensures r.Some? && end.Return? ==> r.value.tab.fibers[pos].result == end.last
    ensures r.Some? && !end.Chunk? && !end.Return? ==> r.value.tab.fibers[pos].result == s.tab.fibers[pos].result
    ensures r.None? <==> (end.Return? && s.tab.fibers[pos].children != []) || (end.Io? && s.tab.fibers[pos].connecting)
  {
    SceneFacts(s, pos);
    var f := s.tab.fibers[pos];
    match end
    case Chunk(v) =>
      SceneSend(s, pos, Some(v));
      MarkBack(Send(s, pos, Some(v)), pos, AtChunk);
      Some(Mark(Send(s, pos, Some(v)), pos, AtChunk))
    case Io(armed) =>
      if f.connecting then None
      else
        var f' := f.(wait := AtIo, wtoken := f.wtoken || armed, timedOut := if armed then 0 else f.timedOut);
        PutKeepsGood(s, pos, f');
        QuietAfterPut(s, pos, f', pos);
        Some(Put(s, pos, f'))
    case Join =>
      JoinBack(s, pos);
      Some(JoinMain(s, pos))
    case Return(v) =>
      if f.children != [] then None
      else
        SceneSend(s, pos, v);
        CloseBack(Send(s, pos, v), pos);
        Some(Close(Send(s, pos, v), pos))
  }

  function JoinMain(s: State, pos: nat): State
    requires pos < |s.tab.fibers|
  {
    Mark(s, pos, AtJoin).(tomain := s.tomain + [pos], log := s.log.(joined := true))
  }

  lemma JoinBack(s: State, pos: nat)
    requires Scene(s, pos)
    ensures Back(JoinMain(s, pos), pos) && Kept(s, JoinMain(s, pos), pos)
  {
    MarkBack(s, pos, AtJoin);
  }

  lemma SceneSend(s: State, pos: nat, r: Option<Resp>)
    requires Scene(s, pos)
    ensures s.tab.fibers[pos].birth < s.tab.births
    ensures Scene(Send(s, pos, r), pos) && Kept(s, Send(s, pos, r), pos)
    ensures Send(s, pos, r).tab.fibers[pos].children == s.tab.fibers[pos].children
  {
    SceneFacts(s, pos);
    SendKeepsGood(s, pos, r);
    QuietAfterPut(s, pos, s.tab.fibers[pos].(result := r), pos);
  }

  function Close(s: State, pos: nat): State
    requires pos < |s.tab.fibers|
  {
    Put(s, pos, s.tab.fibers[pos].(state := Closed, wait := Dead))
  }

  lemma CloseBack(s: State, pos: nat)
    requires Scene(s, pos) && s.tab.fibers[pos].children == []
    ensures Back(Close(s, pos), pos) && Kept(s, Close(s, pos), pos)
  {
    SceneFacts(s, pos);
    PutKeepsGood(s, pos, s.tab.fibers[pos].(state := Closed, wait := Dead));
    QuietAfterPut(s, pos, s.tab.fibers[pos].(state := Closed, wait := Dead), pos);
  }

  // ---------- switching in ----------

  // A fiber that may be switched into.
  ghost predicate CanStep(s: State, pos: nat) {
    && Good(s) && Quiet(s.tab) && Alive(s.tab, pos)
    && (s.tab.fibers[pos].wait.NotStarted? && s.tab.fibers[pos].connecting ==> !s.tab.fibers[pos].wtoken)
  }

  // Where the fiber wakes up: a new one on its own stack, one that waited for its socket with its
  // timer cancelled, one that waited for the main stack with the answer taken.
  function WakeUp(s: State, pos: nat): State
    requires pos < |s.tab.fibers|
  {
    var f := s.tab.fibers[pos];
    match f.wait
    case NotStarted => s.(tab := Launch(s.tab, pos))
    case AtIo => Put(s, pos, f.(wait := Running, wtoken := false, timedOut := 0))
    case AtJoin => Put(s, pos, f.(wait := Running, result := None)).(log := s.log.(joined := true))
    case _ => Put(s, pos, f.(wait := Running))
  }

  lemma WakeUpScene(s: State, pos: nat)
    requires CanStep(s, pos) && s.tab.fibers[pos].func
    ensures Scene(WakeUp(s, pos), pos) && Kept(s, WakeUp(s, pos), pos)
  {
    assert SlotOk(s.tab, pos) && SlotQuiet(s.tab, pos);
    var f := s.tab.fibers[pos];
    var s' := WakeUp(s, pos);
    match f.wait {
      case NotStarted => LaunchKeepsGood(s, pos);
      case AtIo => PutKeepsGood(s, pos, f.(wait := Running, wtoken := false, timedOut := 0));
      case AtJoin => WithKeepsInv(s.tab, pos, f.(wait := Running, result := None));
      case _ => PutKeepsGood(s, pos, f.(wait := Running));
    }
    forall i: nat | i < |s'.tab.fibers| && i != pos ensures SlotQuiet(s'.tab, i) {
      assert SlotQuiet(s.tab, i);
    }
  }

  // From one switch into a fiber to the switch back. None is a breach of the discipline.
  function Body(s: State, pos: nat, burst: Burst): (r: Option<State>)
    requires CanStep(s, pos) && s.tab.fibers[pos].func
    ensures r.Some? ==> Back(r.value, pos) && Kept(s, r.value, pos)
  {
    WakeUpScene(s, pos);
    var s0 := WakeUp(s, pos);
    var (s1, waits) := if s.tab.fibers[pos].wait.AtChildIter? then var (a, r) := ChildIter(s0, pos); (a, r.Block?) else (s0, false);
    var (s2, waits) := if waits then (s1, true) else RunOps(s1, pos, burst.ops);
    if waits then
      MarkBack(s2, pos, AtChildIter);
      Some(Mark(s2, pos, AtChildIter))
    else
      EndBurst(s2, pos, burst.end)
  }

  // ---------- switching back ----------

  datatype Outcome = Done(s: State, next: nat) | Breach

  // A fiber that is no longer on its stack gives the stack back.
  function CleanStack(s: State, pos: nat): State
    requires Back(s, pos)
  {
    var f := s.tab.fibers[pos];
    assert SlotOk(s.tab, pos);
    if !f.state.Stacked? && f.t then s.(tab := Unstack(s.tab, pos)) else s
  }

  lemma CleanStackBack(s: State, pos: nat)
    requires Back(s, pos)
    ensures var s' := CleanStack(s, pos);
            && Back(s', pos) && Kept(s, s', pos) && Quiet0(s', pos)
            && s'.tab.fibers[pos].result == s.tab.fibers[pos].result && s'.tab.fibers[pos].state == s.tab.fibers[pos].state
  {
    assert SlotOk(s.tab, pos);
    var f := s.tab.fibers[pos];
    var s' := CleanStack(s, pos);
    if !f.state.Stacked? && f.t {
      UnstackKeepsGood(s, pos);
      forall i: nat | i < |s'.tab.fibers| && i != pos ensures SlotQuiet(s'.tab, i) {
        assert SlotQuiet(s.tab, i);
      }
    }
  }

  // The slot of a fiber that gave up control is quiet, unless it closed without a parent.
  ghost predicate Quiet0(s: State, pos: nat)
    requires pos < |s.tab.fibers|
  {
    var f := s.tab.fibers[pos];
    && (f.state.Stacked? || !f.t)
    && ((f.wait.Dead? && f.parent.None?) || SlotQuiet(s.tab, pos))
  }

  lemma ParentCanStep(s: State, pos: nat)
    requires Back(s, pos) && Quiet0(s, pos) && s.tab.fibers[pos].parent.Some?
    ensures var p := s.tab.fibers[pos].parent.value;
            CanStep(s, p) && s.tab.fibers[p].birth < s.tab.fibers[pos].birth
  {
    assert SlotOk(s.tab, pos);
    var p := s.tab.fibers[pos].parent.value;
    assert ParentOk(s.tab, pos, p);
    assert SlotOk(s.tab, p);
    forall i: nat | i < |s.tab.fibers| && i != -1 ensures SlotQuiet(s.tab, i) {
      if i != pos {
        assert SlotQuiet(s.tab, i);
      }
    }
  }

  // A parentless fiber that closed: its last response goes to the main stack, its slot to the free list.
  function Retire(s: State, pos: nat): State
    requires Good(s) && pos < |s.tab.fibers| && s.tab.fibers[pos].birth < s.tab.births
  {
    var s1 := Publish(s, pos);
    s1.(tab := Release(s1.tab, pos))
  }

  lemma RetireQuiet(s: State, pos: nat)
    requires Back(s, pos) && Quiet0(s, pos) && s.tab.fibers[pos].parent.None? && s.tab.fibers[pos].state.Closed?
    ensures s.tab.fibers[pos].birth < s.tab.births
    ensures Good(Retire(s, pos)) && Quiet(Retire(s, pos).tab)
  {
    assert SlotOk(s.tab, pos);
    PublishKeepsGood(s, pos);
    PublishShape(s, pos);
    hide Good, Inv, Conserved, Publish;
    ReleaseKeepsGood(Publish(s, pos), pos);
    RetireSlots(s, pos);
  }

  lemma PublishShape(s: State, pos: nat)
    requires Good(s) && pos < |s.tab.fibers| && s.tab.fibers[pos].birth < s.tab.births
    ensures Publish(s, pos).tab == With(s.tab, pos, s.tab.fibers[pos].(result := None))
  {
  }

  lemma RetireSlots(s: State, pos: nat)
    requires Good(s) && QuietBut(s.tab, pos) && pos < |s.tab.fibers| && s.tab.fibers[pos].birth < s.tab.births
    requires s.tab.fibers[pos].wait.Dead? && !s.tab.fibers[pos].t
    requires Publish(s, pos).tab == With(s.tab, pos, s.tab.fibers[pos].(result := None))
    ensures Quiet(Retire(s, pos).tab)
  {
    hide Good, Inv, Conserved, Publish;
    var s' := Retire(s, pos);
    forall i: nat | i < |s'.tab.fibers| && i != -1 ensures SlotQuiet(s'.tab, i) {
      if i != pos {
        assert SlotQuiet(s.tab, i);
      }
    }
  }

  // A parentless fiber with a response: the main stack gets it and the fiber will be resumed.
  function Republish(s: State, pos: nat): State
    requires Good(s) && pos < |s.tab.fibers| && s.tab.fibers[pos].birth < s.tab.births
  {
    var s1 := Publish(s, pos);
    s1.(toexec := s1.toexec + [pos])
  }

  lemma RepublishQuiet(s: State, pos: nat)
    requires Back(s, pos) && Quiet0(s, pos) && s.tab.fibers[pos].parent.None? && !s.tab.fibers[pos].state.Closed?
    ensures s.tab.fibers[pos].birth < s.tab.births
    ensures Good(Republish(s, pos)) && Quiet(Republish(s, pos).tab) && Quiet(s.tab)
  {
    assert SlotOk(s.tab, pos);
    PublishKeepsGood(s, pos);
    PublishShape(s, pos);
    var s' := Republish(s, pos);
    hide Good, Publish;
    QueuesDoNotMatter(Publish(s, pos), s');
    forall i: nat | i < |s'.tab.fibers| && i != -1 ensures SlotQuiet(s'.tab, i) && SlotQuiet(s.tab, i) {
      if i != pos {
        assert SlotQuiet(s.tab, i);
      }
    }
  }

  // Switches into a fiber and deals with what it left behind. Both recursions go to an older fiber,
  // so they end.
  function StepInto(s: State, pos: nat, oracle: nat -> Burst, k: nat): (r: Outcome)
    requires CanStep(s, pos)
    ensures r.Done? ==> Good(r.s) && Quiet(r.s.tab) && r.s.tab.away == s.tab.away
    decreases s.tab.fibers[pos].birth, 1
  {
    if s.tab.fibers[pos].func then
      var after := Body(s, pos, oracle(k));
      if after.None? then Breach else SteppedOut(after.value, pos, oracle, k + 1)
    else
      FunclessBack(s, pos);
      SteppedOut(Close(s, pos), pos, oracle, k + 1)
  }

  lemma FunclessBack(s: State, pos: nat)
    requires CanStep(s, pos) && !s.tab.fibers[pos].func
    ensures Back(Close(s, pos), pos) && Kept(s, Close(s, pos), pos)
  {
    assert SlotOk(s.tab, pos);
    var f := s.tab.fibers[pos].(state := Closed, wait := Dead);
    PutKeepsGood(s, pos, f);
    forall i: nat | i < |s.tab.fibers| && i != pos ensures SlotQuiet(Close(s, pos).tab, i) {
      assert SlotQuiet(s.tab, i);
    }
  }

  // Back on the main stack.
  function SteppedOut(s: State, pos: nat, oracle: nat -> Burst, k: nat): (r: Outcome)
    requires Back(s, pos)
    ensures r.Done? ==> Good(r.s) && Quiet(r.s.tab) && r.s.tab.away == s.tab.away
    decreases s.tab.fibers[pos].birth, 0
  {
    CleanStackBack(s, pos);
    var s1 := CleanStack(s, pos);
    var f := s1.tab.fibers[pos];
    if f.parent.Some? then
      ParentCanStep(s1, pos);
      if f.state.Closed? || f.result.Some? then StepInto(s1, f.parent.value, oracle, k) else Done(s1, k)
    else if f.state.Closed? then
      RetireQuiet(s1, pos);
      Done(Retire(s1, pos), k)
    else
      RepublishQuiet(s1, pos);
      if f.result.Some? then Done(Republish(s1, pos), k) else Done(s1, k)
  }
}
