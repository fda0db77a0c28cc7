// What a fiber ends its bursts with is what it sends: the log of responses against the bursts themselves.
module FiberYields {
  import opened Wrappers
  import opened Sequences
  import opened FiberTable
  import opened FiberState
  import opened FiberSpec
  import opened FiberSched
  import opened FiberFrames
  import opened FiberRuns

  // ---------- one burst ----------

  // A response is sent by a chunk, and by a return with a value.
  function Emitted(end: Yield): (r: Option<Resp>)
    ensures forall v :: r == Some(v) <==> end == Chunk(v) || end == Return(Some(v))
  {
    match end
    case Chunk(v) => Some(v)
    case Return(last) => last
    case _ => None
  }

  // The fiber's record after it gave up control.
  ghost predicate YieldedRecord(f: Fiber, end: Yield, f': Fiber) {
    match end
    case Chunk(v) => f' == f.(result := Some(v), wait := AtChunk)
    case Return(last) => f' == f.(result := last, wait := Dead, state := Closed)
    case Io(armed) => f' == f.(wait := AtIo, wtoken := f.wtoken || armed, timedOut := if armed then 0 else f.timedOut)
    case Join => f' == f.(wait := AtJoin)
  }

  // Giving up control: the pending response of the fiber and the log of what it sent are exactly what the
  // burst ends with; only join_main hands the fiber to the main stack; and nothing else changes.
  lemma YieldMeans(s: State, pos: nat, end: Yield)
    requires Scene(s, pos) && EndBurst(s, pos, end).Some?
    ensures var f, s' := s.tab.fibers[pos], EndBurst(s, pos, end).value;
            && pos < |s'.tab.fibers| && YieldedRecord(f, end, s'.tab.fibers[pos])
            && s'.tab == s.tab.(fibers := s.tab.fibers[pos := s'.tab.fibers[pos]])
            && s'.toexec == s.toexec && s'.results == s.results
            && s'.tomain == s.tomain + (if end.Join? then [pos] else [])
            && f.birth < |s.log.sent| && s'.log.sent == s.log.sent[f.birth := s.log.sent[f.birth] + Pending(Emitted(end))]
            && s'.log.got == s.log.got && s'.log.main == s.log.main && s'.log.popped == s.log.popped
            && s'.log.joined == (s.log.joined || end.Join?)
  {
    SceneFacts(s, pos);
    var b := s.tab.fibers[pos].birth;
    assert s.log.sent[b] + [] == s.log.sent[b];
    assert s.log.sent == s.log.sent[b := s.log.sent[b]];
  }

  // ---------- steps that send nothing ----------

  function SentOf(s: State, b: nat): seq<Resp> {
    if b < |s.log.sent| then s.log.sent[b] else []
  }

  function DroppedOf(s: State, b: nat): nat {
    if b < |s.log.dropped| then s.log.dropped[b] else 0
  }

  // The slot holds the same fiber, whose response may have been taken, or a new one.
  ghost predicate CalmSlot(s: State, s': State, i: nat)
    requires i < |s'.tab.fibers|
  {
    var f' := s'.tab.fibers[i];
    if i < |s.tab.fibers| && f'.birth == s.tab.fibers[i].birth then
      var f := s.tab.fibers[i];
      f'.parent == f.parent && f'.func == f.func && (f'.result == f.result || f'.result.None?)
    else f'.birth >= s.tab.births && f'.result.None?
  }

  // Nothing is sent or dropped, and no response appears.
  ghost predicate Calm(s: State, s': State) {
    && (forall b: nat :: SentOf(s', b) == SentOf(s, b) && DroppedOf(s', b) == DroppedOf(s, b))
    && s.tab.births <= s'.tab.births && (s.log.joined ==> s'.log.joined)
    && (forall i: nat :: i < |s'.tab.fibers| ==> CalmSlot(s, s', i))
  }

  lemma CalmTwice(s: State, s1: State, s2: State)
    requires Calm(s, s1) && Calm(s1, s2) && Inv(s.tab)
    ensures Calm(s, s2)
  {
    BirthsKnown(s.tab);
    forall b: nat ensures SentOf(s2, b) == SentOf(s, b) && DroppedOf(s2, b) == DroppedOf(s, b) {
      assert SentOf(s1, b) == SentOf(s, b) && DroppedOf(s1, b) == DroppedOf(s, b);
    }
    forall i: nat | i < |s2.tab.fibers| ensures CalmSlot(s, s2, i) {
      assert CalmSlot(s1, s2, i);
      if i < |s1.tab.fibers| {
        assert CalmSlot(s, s1, i);
      }
    }
  }

  // A change to one record, or to the table and the queues, that keeps parents and responses.
  lemma SameRecordsCalm(s: State, s': State)
    requires |s'.tab.fibers| == |s.tab.fibers| && s'.tab.births == s.tab.births && (s.log.joined ==> s'.log.joined)
    requires s'.log.sent == s.log.sent && s'.log.dropped == s.log.dropped
    requires forall i: nat :: i < |s.tab.fibers| ==>
      var f, f' := s.tab.fibers[i], s'.tab.fibers[i];
      f'.birth == f.birth && f'.parent == f.parent && f'.func == f.func && (f'.result == f.result || f'.result.None?)
    ensures Calm(s, s')
  {
  }

  lemma TakeChildCalm(s: State, p: nat, k: nat)
    requires Scene(s, p) && k < |s.tab.fibers[p].children|
    requires ChildOk(s.tab, p, s.tab.fibers[p].children[k]) && SlotOk(s.tab, s.tab.fibers[p].children[k])
    ensures Calm(s, TakeChild(s, p, k))
  {
    SameRecordsCalm(s, TakeChild(s, p, k));
  }

  lemma {:induction false} ChildIterCalm(s: State, p: nat)
    requires Scene(s, p)
    ensures Calm(s, ChildIter(s, p).0)
    decreases |s.tab.fibers[p].children|
  {
    SceneFacts(s, p);
    var cs := s.tab.fibers[p].children;
    if cs == [] || FirstReady(s.tab, cs, 0) == |cs| {
      SameRecordsCalm(s, s);
    } else {
      var k := FirstReady(s.tab, cs, 0);
      TakeChildScene(s, p, k);
      TakeChildCalm(s, p, k);
      if s.tab.fibers[cs[k]].result.None? {
        ChildIterCalm(TakeChild(s, p, k), p);
        CalmTwice(s, TakeChild(s, p, k), ChildIter(TakeChild(s, p, k), p).0);
      }
    }
  }

  lemma EnrollCalm(s: State, func: bool, param: bool, parent: Option<nat>)
    requires Good(s) && (parent.Some? ==> parent.value < |s.tab.fibers| && parent.value != NextSlot(s.tab))
    ensures Calm(s, Enroll(s, func, param, parent))
  {
    var s' := Enroll(s, func, param, parent);
    NextSlotIsFree(s.tab);
    BirthsKnown(s.tab);
    forall i: nat | i < |s'.tab.fibers| ensures CalmSlot(s, s', i) {
    }
  }

  lemma SpawnCalm(s: State, parent: Option<nat>, schedule: bool)
    requires Good(s) && (parent.Some? ==> parent.value < |s.tab.fibers| && parent.value != NextSlot(s.tab))
    ensures Calm(s, SpawnFiber(s, parent, schedule))
  {
    EnrollCalm(s, true, true, parent);
    var s1, s2 := Enroll(s, true, true, parent), SpawnFiber(s, parent, schedule);
    forall i: nat | i < |s2.tab.fibers| ensures CalmSlot(s, s2, i) {
      assert CalmSlot(s, s1, i);
    }
    assert forall b: nat :: SentOf(s2, b) == SentOf(s1, b) && DroppedOf(s2, b) == DroppedOf(s1, b);
  }

  lemma ResolveCalm(s: State, parent: Option<nat>, armed: bool, timeout: nat, ok: bool)
    requires Good(s) && (parent.Some? ==> parent.value < |s.tab.fibers| && parent.value != NextSlot(s.tab))
    ensures Calm(s, ResolveFiber(s, parent, armed, timeout, ok))
  {
    EnrollCalm(s, true, true, parent);
    var s1, s2 := Enroll(s, true, true, parent), ResolveFiber(s, parent, armed, timeout, ok);
    ResolvedRecords(s, parent, armed, timeout, ok);
    hide Good, Enroll, ResolveFiber;
    forall i: nat | i < |s2.tab.fibers| ensures CalmSlot(s, s2, i) {
      assert CalmSlot(s, s1, i);
      SameApart(s1.tab.fibers[i], s2.tab.fibers[i]);
    }
    assert forall b: nat :: SentOf(s2, b) == SentOf(s1, b) && DroppedOf(s2, b) == DroppedOf(s1, b);
  }

  lemma SameApart(f: Fiber, f': Fiber)
    ensures f'.(children := []) == f.(children := []) ==>
              f'.birth == f.birth && f'.parent == f.parent && f'.func == f.func && f'.result == f.result
  {
  }

  // Starting a lookup changes no other fiber than its own, apart from its parent's children.
  lemma ResolvedRecords(s: State, parent: Option<nat>, armed: bool, timeout: nat, ok: bool)
    requires Good(s) && (parent.Some? ==> parent.value < |s.tab.fibers| && parent.value != NextSlot(s.tab))
    ensures var s1, s2 := Enroll(s, true, true, parent), ResolveFiber(s, parent, armed, timeout, ok);
            && s2.log == s1.log && s2.tab.births == s1.tab.births && |s2.tab.fibers| == |s1.tab.fibers|
            && NextSlot(s.tab) < |s1.tab.fibers|
            && s2.tab.fibers[NextSlot(s.tab)].birth == s1.tab.fibers[NextSlot(s.tab)].birth == s.tab.births
            && s2.tab.fibers[NextSlot(s.tab)].result.None?
            && (NextSlot(s.tab) < |s.tab.fibers| ==> s.tab.fibers[NextSlot(s.tab)].birth < s.tab.births)
            && forall i: nat :: i < |s1.tab.fibers| && i != NextSlot(s.tab) ==>
                 s2.tab.fibers[i].(children := []) == s1.tab.fibers[i].(children := [])
  {
    NextSlotIsFree(s.tab);
    BirthsKnown(s.tab);
    var pos, s1 := NextSlot(s.tab), Enroll(s, true, true, parent);
    EnrolledRecord(s, parent);
    var s2 := Put(s1, pos, s1.tab.fibers[pos].(wtoken := armed, timedOut := LookupTicks(timeout)));
    hide Good, Inv, Conserved, Enroll, Disown;
    DisownedRecords(s2.tab, pos);
  }

  lemma EnrolledRecord(s: State, parent: Option<nat>)
    requires Inv(s.tab) && (parent.Some? ==> parent.value < |s.tab.fibers| && parent.value != NextSlot(s.tab))
    ensures var pos, s1 := NextSlot(s.tab), Enroll(s, true, true, parent);
            && pos < |s1.tab.fibers| && s1.tab.births == s.tab.births + 1
            && s1.tab.fibers[pos] == NewFiber(true, true, parent, s.tab.births)
            && (parent.Some? ==> parent.value < |s1.tab.fibers| && s1.tab.fibers[parent.value].children != [])
  {
    NextSlotIsFree(s.tab);
  }

  lemma DisownedRecords(t: Table, pos: nat)
    requires pos < |t.fibers|
    requires t.fibers[pos].parent.Some? ==>
      var p := t.fibers[pos].parent.value; p != pos && p < |t.fibers| && t.fibers[p].children != []
    ensures var t' := Disown(t, pos);
            && t'.births == t.births && |t'.fibers| == |t.fibers|
            && t'.fibers[pos].birth == t.fibers[pos].birth && t'.fibers[pos].result == t.fibers[pos].result
            && forall i: nat :: i < |t.fibers| && i != pos ==> t'.fibers[i].(children := []) == t.fibers[i].(children := [])
  {
  }

  lemma OpCalm(s: State, pos: nat, op: Op)
    requires Scene(s, pos)
    ensures Calm(s, OpState(s, pos, op))
  {
    AliveIsNotNext(s.tab, pos);
    match op {
      case Spawn(child, schedule) => SpawnCalm(s, ParentFor(child, pos), schedule);
      case Resolve(child, armed, timeout, ok) => ResolveCalm(s, ParentFor(child, pos), armed, timeout, ok);
      case GetChild => ChildIterCalm(s, pos);
      case RefusedListener => SameRecordsCalm(s, Refuse(s));
    }
  }

  lemma SceneIsSound(s: State, pos: nat)
    requires Scene(s, pos)
    ensures Inv(s.tab) && pos < |s.tab.fibers|
  {
  }

  lemma {:induction false} RunOpsCalm(s: State, pos: nat, ops: seq<Op>)
    requires Scene(s, pos)
    ensures Calm(s, RunOps(s, pos, ops).0)
    decreases |ops|
  {
    if ops == [] {
      SameRecordsCalm(s, s);
    } else {
      RunOpsUnfolds(s, pos, ops);
      OpCalm(s, pos, ops[0]);
      SceneIsSound(s, pos);
      var s1 := OpState(s, pos, ops[0]);
      hide RunOps, Calm, Scene, OpState, WaitsAtOp, Inv;
      if !WaitsAtOp(s, pos, ops[0]) {
        RunOpsCalm(s1, pos, ops[1..]);
        CalmTwice(s, s1, RunOps(s1, pos, ops[1..]).0);
      }
    }
  }

  // The same for a change to one record.
  lemma ReplacedCalm(s: State, s': State, pos: nat, f: Fiber)
    requires pos < |s.tab.fibers| && s'.tab.fibers == s.tab.fibers[pos := f] && s'.tab.births == s.tab.births
    requires (s.log.joined ==> s'.log.joined) && s'.log.sent == s.log.sent && s'.log.dropped == s.log.dropped
    requires var g := s.tab.fibers[pos];
             f.birth == g.birth && f.parent == g.parent && f.func == g.func && (f.result == g.result || f.result.None?)
    ensures Calm(s, s')
  {
    SameRecordsCalm(s, s');
  }

  lemma WakeUpCalm(s: State, pos: nat)
    requires pos < |s.tab.fibers|
    ensures Calm(s, WakeUp(s, pos))
  {
    hide Calm;
    var f, s' := s.tab.fibers[pos], WakeUp(s, pos);
    match f.wait {
      case NotStarted => ReplacedCalm(s, s', pos, s'.tab.fibers[pos]);
      case AtIo => ReplacedCalm(s, s', pos, f.(wait := Running, wtoken := false, timedOut := 0));
      case AtJoin => ReplacedCalm(s, s', pos, f.(wait := Running, result := None));
      case _ => ReplacedCalm(s, s', pos, f.(wait := Running));
    }
  }

  lemma UpToEndCalm(s: State, pos: nat, burst: Burst)
    requires CanStep(s, pos) && s.tab.fibers[pos].func
    ensures Calm(s, UpToEnd(s, pos, burst).0)
  {
    WakeUpScene(s, pos);
    WakeUpCalm(s, pos);
    var s0 := WakeUp(s, pos);
    assert Inv(s.tab) && Inv(s0.tab);
    hide CanStep, Scene, WakeUp, ChildIter, RunOps, Calm, Inv;
    if s.tab.fibers[pos].wait.AtChildIter? {
      ChildIterCalm(s0, pos);
      CalmTwice(s, s0, ChildIter(s0, pos).0);
    }
    var (s1, waits) := if s.tab.fibers[pos].wait.AtChildIter? then var (a, r) := ChildIter(s0, pos); (a, r.Block?) else (s0, false);
    if !waits {
      RunOpsCalm(s1, pos, burst.ops);
      CalmTwice(s, s1, RunOps(s1, pos, burst.ops).0);
    }
  }

  // ---------- what a switch sends ----------

  function Tagged(b: nat, r: Option<Resp>): seq<Sent> {
    if r.Some? then [Sent(b, r.value)] else []
  }

  // What the fibers that run in one switch end their bursts with, in order.
  ghost function BurstTrace(s: State, pos: nat, burst: Burst): seq<Sent>
    requires CanStep(s, pos) && s.tab.fibers[pos].func
  {
    Tagged(s.tab.fibers[pos].birth, if UpToEnd(s, pos, burst).1 then None else Emitted(burst.end))
  }

  ghost function StepTrace(s: State, pos: nat, oracle: nat -> Burst, k: nat): seq<Sent>
    requires CanStep(s, pos)
    decreases s.tab.fibers[pos].birth, 1
  {
    if s.tab.fibers[pos].func then
      var after := Body(s, pos, oracle(k));
      if after.None? then [] else BurstTrace(s, pos, oracle(k)) + OutTrace(after.value, pos, oracle, k + 1)
    else
      FunclessBack(s, pos);
      OutTrace(Close(s, pos), pos, oracle, k + 1)
  }

  ghost function OutTrace(s: State, pos: nat, oracle: nat -> Burst, k: nat): seq<Sent>
    requires Back(s, pos)
    decreases s.tab.fibers[pos].birth, 0
  {
    CleanStackBack(s, pos);
    var s1 := CleanStack(s, pos);
    var f := s1.tab.fibers[pos];
    if f.parent.Some? && (f.state.Closed? || f.result.Some?) then
      ParentCanStep(s1, pos);
      StepTrace(s1, f.parent.value, oracle, k)
    else []
  }

  lemma {:induction false} FromConcat(a: seq<Sent>, b: seq<Sent>, birth: nat)
    ensures From(a + b, birth) == From(a, birth) + From(b, birth)
  {
    if b == [] {
      assert a + b == a;
    } else {
      var last := |b| - 1;
      assert (a + b)[..|a + b| - 1] == a + b[..last];
      FromConcat(a, b[..last], birth);
    }
  }

  lemma FromTagged(b: nat, r: Option<Resp>, birth: nat)
    ensures From(Tagged(b, r), birth) == if birth == b then Pending(r) else []
  {
    if r.Some? {
      assert Tagged(b, r)[..0] == [];
      assert From([], birth) == [];
    }
  }

  // A stretch of a fiber sends what its burst ends with, unless it stays in get_child.
  lemma BodySends(s: State, pos: nat, burst: Burst, b: nat)
    requires CanStep(s, pos) && s.tab.fibers[pos].func && Body(s, pos, burst).Some?
    ensures SentOf(Body(s, pos, burst).value, b) == SentOf(s, b) + From(BurstTrace(s, pos, burst), b)
  {
    UpToEndCalm(s, pos, burst);
    BodyUnfolds(s, pos, burst);
    var (s2, waits) := UpToEnd(s, pos, burst);
    var birth := s.tab.fibers[pos].birth;
    SameFiber(s, pos, burst);
    FromTagged(birth, if waits then None else Emitted(burst.end), b);
    assert SentOf(s2, b) == SentOf(s, b);
    if !waits {
      YieldMeans(s2, pos, burst.end);
    }
    hide CanStep, Body, UpToEnd, EndBurst, Scene, Calm;
  }

  lemma SameFiber(s: State, pos: nat, burst: Burst)
    requires CanStep(s, pos) && s.tab.fibers[pos].func
    ensures var s2 := UpToEnd(s, pos, burst).0;
            pos < |s2.tab.fibers| && s2.tab.fibers[pos].birth == s.tab.fibers[pos].birth
  {
    WakeUpScene(s, pos);
    hide CanStep, Scene, WakeUp;
  }

  lemma StepUnfolds(s: State, pos: nat, oracle: nat -> Burst, k: nat)
    requires CanStep(s, pos) && s.tab.fibers[pos].func && StepInto(s, pos, oracle, k).Done?
    ensures Body(s, pos, oracle(k)).Some?
    ensures var s1 := Body(s, pos, oracle(k)).value;
            && StepInto(s, pos, oracle, k) == SteppedOut(s1, pos, oracle, k + 1)
            && StepTrace(s, pos, oracle, k) == BurstTrace(s, pos, oracle(k)) + OutTrace(s1, pos, oracle, k + 1)
  {
    hide Body, BurstTrace, CanStep, SteppedOut, OutTrace;
  }

  lemma {:induction false} StepSends(s: State, pos: nat, oracle: nat -> Burst, k: nat, b: nat)
    requires CanStep(s, pos) && StepInto(s, pos, oracle, k).Done?
    ensures SentOf(StepInto(s, pos, oracle, k).s, b) == SentOf(s, b) + From(StepTrace(s, pos, oracle, k), b)
    decreases s.tab.fibers[pos].birth, 1
  {
    hide Body, BurstTrace, StepInto, SteppedOut, StepTrace, OutTrace, SentOf, From;
    if s.tab.fibers[pos].func {
      StepUnfolds(s, pos, oracle, k);
      var s1 := Body(s, pos, oracle(k)).value;
      BodySends(s, pos, oracle(k), b);
      OutSends(s1, pos, oracle, k + 1, b);
      FromConcat(BurstTrace(s, pos, oracle(k)), OutTrace(s1, pos, oracle, k + 1), b);
    } else {
      FunclessUnfolds(s, pos, oracle, k);
      OutSends(Close(s, pos), pos, oracle, k + 1, b);
      CloseSends(s, pos, b);
    }
  }

  lemma FunclessUnfolds(s: State, pos: nat, oracle: nat -> Burst, k: nat)
    requires CanStep(s, pos) && !s.tab.fibers[pos].func
    ensures Back(Close(s, pos), pos) && Kept(s, Close(s, pos), pos)
    ensures StepInto(s, pos, oracle, k) == SteppedOut(Close(s, pos), pos, oracle, k + 1)
    ensures StepTrace(s, pos, oracle, k) == OutTrace(Close(s, pos), pos, oracle, k + 1)
  {
    FunclessBack(s, pos);
    hide CanStep, SteppedOut, OutTrace;
  }

  lemma CloseSends(s: State, pos: nat, b: nat)
    requires pos < |s.tab.fibers|
    ensures SentOf(Close(s, pos), b) == SentOf(s, b)
  {
  }

  lemma {:induction false} OutSends(s: State, pos: nat, oracle: nat -> Burst, k: nat, b: nat)
    requires Back(s, pos) && SteppedOut(s, pos, oracle, k).Done?
    ensures SentOf(SteppedOut(s, pos, oracle, k).s, b) == SentOf(s, b) + From(OutTrace(s, pos, oracle, k), b)
    decreases s.tab.fibers[pos].birth, 0
  {
    CleanStackBack(s, pos);
    var s1 := CleanStack(s, pos);
    var f := s1.tab.fibers[pos];
    assert s1.log == s.log;
    if f.parent.Some? {
      ParentCanStep(s1, pos);
      if f.state.Closed? || f.result.Some? {
        StepSends(s1, f.parent.value, oracle, k, b);
      }
    } else if f.state.Closed? {
      RetireQuiet(s1, pos);
    } else {
      RepublishQuiet(s1, pos);
    }
  }

  // ---------- events and runs ----------

  // What is sent during an event. A timer that answers by itself sends its response when it is set.
  ghost function EventTrace(s: State, e: Event, oracle: nat -> Burst): seq<Sent>
    requires Settled(s) && Allowed(s, e)
  {
    match e
    case NewResponseTimer(resp, _) => [Sent(s.tab.births, resp)]
    case Exec(reply) =>
      var pos := s.toexec[0];
      QueuesDoNotMatter(s, Pop(s));
      if !s.tab.fibers[pos].connecting then StepTrace(Pop(s), pos, oracle, 0)
      else if reply.Address? && !reply.registered then
        AddressCanStep(s, reply);
        StepTrace(HaveAddress(Pop(s), pos), pos, oracle, 0)
      else []
    case TimedOut(pos, rearmed) =>
      var f := s.tab.fibers[pos];
      if f.wtoken && !(f.connecting && f.timedOut > 1) then
        TimeoutSettled(s, pos, rearmed);
        StepTrace(Put(s, pos, AfterTimeout(f, rearmed)), pos, oracle, 0)
      else []
    case _ => []
  }

  lemma EventSends(s: State, e: Event, oracle: nat -> Burst, b: nat)
    requires Settled(s) && Allowed(s, e) && Step(s, e, oracle).Done?
    ensures SentOf(Step(s, e, oracle).s, b) == SentOf(s, b) + From(EventTrace(s, e, oracle), b)
  {
    match e {
      case NewFiberEvent => SpawnCalm(s, None, true);
      case NewFiberTimer(armed) => EnrollCalm(s, true, true, None);
      case NewResolve(armed, timeout, ok) => ResolveCalm(s, None, armed, timeout, ok);
      case NewResponseTimer(resp, armed) => TimerSends(s, resp, armed, b);
      case Exec(reply) => ExecSends(s, reply, oracle, b);
      case TimedOut(pos, rearmed) => TimeoutSends(s, pos, rearmed, oracle, b);
      case DropTimer(pos) => CancelSends(s, pos, b);
      case _ =>
    }
    hide Settled, Allowed, StepTrace, StepInto;
  }

  lemma TimerSends(s: State, resp: Resp, armed: bool, b: nat)
    requires Settled(s)
    ensures SentOf(ResponseTimer(s, resp, armed), b) == SentOf(s, b) + From([Sent(s.tab.births, resp)], b)
  {
    EnrollKeepsGood(s, false, false, None);
    NextSlotIsFree(s.tab);
    FromTagged(s.tab.births, Some(resp), b);
  }

  lemma CancelSends(s: State, pos: nat, b: nat)
    requires Settled(s) && Allowed(s, DropTimer(pos))
    ensures SentOf(CancelTimer(s, pos), b) == SentOf(s, b)
  {
    assert SlotOk(s.tab, pos);
  }

  lemma ExecSends(s: State, reply: Reply, oracle: nat -> Burst, b: nat)
    requires Settled(s) && Allowed(s, Exec(reply)) && ExecNext(s, reply, oracle).Done?
    ensures SentOf(ExecNext(s, reply, oracle).s, b) == SentOf(s, b) + From(EventTrace(s, Exec(reply), oracle), b)
  {
    var pos := s.toexec[0];
    QueuesDoNotMatter(s, Pop(s));
    if !s.tab.fibers[pos].connecting {
      StepSends(Pop(s), pos, oracle, 0, b);
    } else if reply.Address? && !reply.registered {
      AddressCanStep(s, reply);
      StepSends(HaveAddress(Pop(s), pos), pos, oracle, 0, b);
    }
  }

  lemma TimeoutSends(s: State, pos: nat, rearmed: bool, oracle: nat -> Burst, b: nat)
    requires Settled(s) && Allowed(s, TimedOut(pos, rearmed)) && TimeoutStep(s, pos, rearmed, oracle).Done?
    ensures SentOf(TimeoutStep(s, pos, rearmed, oracle).s, b) == SentOf(s, b) + From(EventTrace(s, TimedOut(pos, rearmed), oracle), b)
  {
    var f := s.tab.fibers[pos];
    if f.wtoken {
      TimeoutSettled(s, pos, rearmed);
      if !(f.connecting && f.timedOut > 1) {
        StepSends(Put(s, pos, AfterTimeout(f, rearmed)), pos, oracle, 0, b);
      }
    }
  }

  // A disciplined run, with all that the bursts in it ended with, in order and by birth number.
  ghost predicate Traced(events: seq<Event>, s: State, trace: seq<Sent>)
    decreases |events|
  {
    if events == [] then s == Start() && trace == []
    else
      var last := |events| - 1;
      exists p: State, before: seq<Sent>, oracle: nat -> Burst, next: nat ::
        Traced(events[..last], p, before) && LeadsTraced(p, before, events[last], oracle, s, next, trace)
  }

  ghost predicate LeadsTraced(p: State, before: seq<Sent>, e: Event, oracle: nat -> Burst, s: State, next: nat, trace: seq<Sent>) {
    Leads(p, e, oracle, s, next) && trace == before + EventTrace(p, e, oracle)
  }

  // Every run has a trace.
  lemma {:induction false} RunHasTrace(events: seq<Event>, s: State) returns (trace: seq<Sent>)
    requires Reaches(events, s)
    ensures Traced(events, s, trace)
    decreases |events|
  {
    if events == [] {
      trace := [];
    } else {
      var last := |events| - 1;
      var p: State, oracle: nat -> Burst, next: nat :|
        RunFrom(Start(), events[..last], p) && Leads(p, events[last], oracle, s, next);
      var before := RunHasTrace(events[..last], p);
      trace := before + EventTrace(p, events[last], oracle);
      assert LeadsTraced(p, before, events[last], oracle, s, next, trace);
    }
  }

  // Main result on what is sent: in every disciplined run, the log of what a fiber sent is exactly the
  // values that its bursts ended with, in order.
  lemma {:induction false} SentIsTraced(events: seq<Event>, s: State, trace: seq<Sent>, b: nat)
    requires Traced(events, s, trace)
    ensures Reaches(events, s) && SentOf(s, b) == From(trace, b)
    decreases |events|
  {
    if events != [] {
      var last := |events| - 1;
      var p: State, before: seq<Sent>, oracle: nat -> Burst, next: nat :|
        Traced(events[..last], p, before) && LeadsTraced(p, before, events[last], oracle, s, next, trace);
      SentIsTraced(events[..last], p, before, b);
      hide Step, Settled, Allowed, EventTrace;
      EventSends(p, events[last], oracle, b);
      FromConcat(before, EventTrace(p, events[last], oracle), b);
    }
  }

  // ---------- fibers without a parent ----------

  // A parentless fiber with a function never keeps a response, and never loses one.
  ghost predicate RootOk(s: State, i: nat, x: int)
    requires i < |s.tab.fibers|
  {
    var f := s.tab.fibers[i];
    f.parent.None? && f.func ==> DroppedOf(s, f.birth) == 0 && (i != x ==> f.result.None?)
  }

  ghost predicate RootsOk(s: State, x: int) {
    !s.log.joined ==> forall i: nat :: i < |s.tab.fibers| ==> RootOk(s, i, x)
  }

  lemma CalmKeepsRoots(s: State, s': State, x: int)
    requires Good(s) && Calm(s, s') && RootsOk(s, x)
    ensures RootsOk(s', x)
  {
    if !s'.log.joined {
      forall i: nat | i < |s'.tab.fibers| ensures RootOk(s', i, x) {
        assert CalmSlot(s, s', i);
        if i < |s.tab.fibers| {
          assert RootOk(s, i, x);
        }
      }
    }
  }

  lemma YieldKeepsRoots(s: State, pos: nat, end: Yield)
    requires Scene(s, pos) && EndBurst(s, pos, end).Some? && RootsOk(s, -1)
    ensures RootsOk(EndBurst(s, pos, end).value, pos)
  {
    YieldMeans(s, pos, end);
    DropsAtMost(s, pos, end);
    var s' := EndBurst(s, pos, end).value;
    if !s'.log.joined {
      forall i: nat | i < |s'.tab.fibers| ensures RootOk(s', i, pos) {
        assert RootOk(s, i, -1);
        DistinctBirths(s.tab, i, pos);
      }
    }
  }

  // Giving up control drops at most the pending response.
  lemma DropsAtMost(s: State, pos: nat, end: Yield)
    requires Scene(s, pos) && EndBurst(s, pos, end).Some?
    ensures var f, s' := s.tab.fibers[pos], EndBurst(s, pos, end).value;
            && (forall b: nat :: b != f.birth ==> DroppedOf(s', b) == DroppedOf(s, b))
            && DroppedOf(s', f.birth) <= DroppedOf(s, f.birth) + |Pending(f.result)|
  {
    SceneFacts(s, pos);
  }

  lemma BodyKeepsRoots(s: State, pos: nat, burst: Burst)
    requires CanStep(s, pos) && s.tab.fibers[pos].func && Body(s, pos, burst).Some? && RootsOk(s, -1)
    ensures RootsOk(Body(s, pos, burst).value, pos)
  {
    UpToEndCalm(s, pos, burst);
    BodyUnfolds(s, pos, burst);
    var (s2, waits) := UpToEnd(s, pos, burst);
    CalmKeepsRoots(s, s2, -1);
    if !waits {
      YieldKeepsRoots(s2, pos, burst.end);
    } else {
      SameRecordsCalm(s2, Mark(s2, pos, AtChildIter));
      CalmKeepsRoots(s2, Mark(s2, pos, AtChildIter), -1);
      LooserRoots(Mark(s2, pos, AtChildIter), pos);
    }
    hide CanStep, Body, UpToEnd, EndBurst, Calm, RootsOk, Mark;
  }

  lemma LooserRoots(s: State, pos: nat)
    requires RootsOk(s, -1)
    ensures RootsOk(s, pos)
  {
    if !s.log.joined {
      forall i: nat | i < |s.tab.fibers| ensures RootOk(s, i, pos) {
        assert RootOk(s, i, -1);
      }
    }
  }

  // The exception ends when the fiber is none, or its response is gone.
  lemma TighterRoots(s: State, pos: nat)
    requires RootsOk(s, pos) && pos < |s.tab.fibers|
    requires s.tab.fibers[pos].parent.Some? || !s.tab.fibers[pos].func || s.tab.fibers[pos].result.None?
    ensures RootsOk(s, -1)
  {
    if !s.log.joined {
      forall i: nat | i < |s.tab.fibers| ensures RootOk(s, i, -1) {
        assert RootOk(s, i, pos);
      }
    }
  }

  lemma {:induction false} StepKeepsRoots(s: State, pos: nat, oracle: nat -> Burst, k: nat)
    requires CanStep(s, pos) && RootsOk(s, -1) && StepInto(s, pos, oracle, k).Done?
    ensures RootsOk(StepInto(s, pos, oracle, k).s, -1)
    decreases s.tab.fibers[pos].birth, 1
  {
    if s.tab.fibers[pos].func {
      BodyKeepsRoots(s, pos, oracle(k));
      OutKeepsRoots(Body(s, pos, oracle(k)).value, pos, oracle, k + 1);
    } else {
      FunclessBack(s, pos);
      SameRecordsCalm(s, Close(s, pos));
      CalmKeepsRoots(s, Close(s, pos), -1);
      LooserRoots(Close(s, pos), pos);
      OutKeepsRoots(Close(s, pos), pos, oracle, k + 1);
    }
    hide Body, RootsOk, Close;
  }

  lemma {:induction false} OutKeepsRoots(s: State, pos: nat, oracle: nat -> Burst, k: nat)
    requires Back(s, pos) && RootsOk(s, pos) && SteppedOut(s, pos, oracle, k).Done?
    ensures RootsOk(SteppedOut(s, pos, oracle, k).s, -1)
    decreases s.tab.fibers[pos].birth, 0
  {
    CleanStackBack(s, pos);
    var s1 := CleanStack(s, pos);
    CleanStackRoots(s, pos);
    var f := s1.tab.fibers[pos];
    hide Good, Retire, Republish, RootsOk, CleanStack;
    if f.parent.Some? {
      ParentCanStep(s1, pos);
      TighterRoots(s1, pos);
      if f.state.Closed? || f.result.Some? {
        StepKeepsRoots(s1, f.parent.value, oracle, k);
      }
    } else if f.state.Closed? {
      RetireQuiet(s1, pos);
      PublishedRoots(s1, pos);
    } else {
      RepublishQuiet(s1, pos);
      if f.result.Some? {
        PublishedRoots(s1, pos);
      } else {
        TighterRoots(s1, pos);
      }
    }
  }

  lemma CleanStackRoots(s: State, pos: nat)
    requires Back(s, pos) && RootsOk(s, pos)
    ensures RootsOk(CleanStack(s, pos), pos)
  {
    assert SlotOk(s.tab, pos);
    SameRecordsCalm(s, CleanStack(s, pos));
    CalmKeepsRoots(s, CleanStack(s, pos), pos);
  }

  lemma PublishedRoots(s: State, pos: nat)
    requires Good(s) && pos < |s.tab.fibers| && s.tab.fibers[pos].birth < s.tab.births && RootsOk(s, pos)
    ensures RootsOk(Retire(s, pos), -1) && RootsOk(Republish(s, pos), -1)
  {
    var f := s.tab.fibers[pos].(result := None);
    PublishShape(s, pos);
    PublishSends(s, pos);
    hide Good, Publish, Calm, RootsOk;
    ReplacedCalm(s, Retire(s, pos), pos, f);
    ReplacedCalm(s, Republish(s, pos), pos, f);
    CalmKeepsRoots(s, Retire(s, pos), pos);
    CalmKeepsRoots(s, Republish(s, pos), pos);
    TighterRoots(Retire(s, pos), pos);
    TighterRoots(Republish(s, pos), pos);
  }

  lemma PublishSends(s: State, pos: nat)
    requires Good(s) && pos < |s.tab.fibers| && s.tab.fibers[pos].birth < s.tab.births
    ensures var l := Publish(s, pos).log; l.sent == s.log.sent && l.dropped == s.log.dropped && l.joined == s.log.joined
  {
  }

  lemma EventKeepsRoots(s: State, e: Event, oracle: nat -> Burst)
    requires Settled(s) && Allowed(s, e) && RootsOk(s, -1) && Step(s, e, oracle).Done?
    ensures RootsOk(Step(s, e, oracle).s, -1)
  {
    match e {
      case NewFiberEvent =>
        SpawnCalm(s, None, true);
        CalmKeepsRoots(s, SpawnFiber(s, None, true), -1);
      case RefusedListenerEvent =>
        SameRecordsCalm(s, Refuse(s));
        CalmKeepsRoots(s, Refuse(s), -1);
      case NewResponseTimer(resp, armed) => ResponseTimerRoots(s, resp, armed);
      case NewFiberTimer(armed) => FiberTimerRoots(s, armed);
      case NewResolve(armed, timeout, ok) =>
        ResolveCalm(s, None, armed, timeout, ok);
        CalmKeepsRoots(s, ResolveFiber(s, None, armed, timeout, ok), -1);
      case DropTimer(pos) => CancelRoots(s, pos);
      case Exec(reply) => ExecRoots(s, reply, oracle);
      case TimedOut(pos, rearmed) => TimeoutRoots(s, pos, rearmed, oracle);
      case Signal(pos) =>
        SameRecordsCalm(s, s.(toexec := s.toexec + [pos]));
        CalmKeepsRoots(s, s.(toexec := s.toexec + [pos]), -1);
      case PopResponse =>
        SameRecordsCalm(s, Fetch(s));
        CalmKeepsRoots(s, Fetch(s), -1);
      case ResumeFiber(pos, answer) =>
    }
    hide Settled, RootsOk, Calm, StepInto;
  }

  lemma ResponseTimerRoots(s: State, resp: Resp, armed: bool)
    requires Settled(s) && RootsOk(s, -1)
    ensures RootsOk(ResponseTimer(s, resp, armed), -1)
  {
    EnrollCalm(s, false, false, None);
    EnrollKeepsGood(s, false, false, None);
    NextSlotIsFree(s.tab);
    BirthsKnown(s.tab);
    var s1, s2 := Enroll(s, false, false, None), ResponseTimer(s, resp, armed);
    CalmKeepsRoots(s, s1, -1);
    if !s2.log.joined {
      forall i: nat | i < |s2.tab.fibers| ensures RootOk(s2, i, -1) {
        assert RootOk(s1, i, -1);
      }
    }
  }

  lemma FiberTimerRoots(s: State, armed: bool)
    requires Settled(s) && RootsOk(s, -1)
    ensures RootsOk(FiberTimer(s, armed), -1)
  {
    EnrollCalm(s, true, true, None);
    EnrollKeepsGood(s, true, true, None);
    var s1 := Enroll(s, true, true, None);
    CalmKeepsRoots(s, s1, -1);
    SameRecordsCalm(s1, FiberTimer(s, armed));
    CalmKeepsRoots(s1, FiberTimer(s, armed), -1);
  }

  lemma CancelRoots(s: State, pos: nat)
    requires Settled(s) && Allowed(s, DropTimer(pos)) && RootsOk(s, -1)
    ensures RootsOk(CancelTimer(s, pos), -1)
  {
    var s' := CancelTimer(s, pos);
    assert SlotOk(s.tab, pos);
    if !s'.log.joined && s.tab.fibers[pos].wtoken {
      forall i: nat | i < |s'.tab.fibers| ensures RootOk(s', i, -1) {
        assert RootOk(s, i, -1);
        DistinctBirths(s.tab, i, pos);
      }
    }
  }

  lemma ExecRoots(s: State, reply: Reply, oracle: nat -> Burst)
    requires Settled(s) && Allowed(s, Exec(reply)) && RootsOk(s, -1) && ExecNext(s, reply, oracle).Done?
    ensures RootsOk(ExecNext(s, reply, oracle).s, -1)
  {
    var pos := s.toexec[0];
    QueuesDoNotMatter(s, Pop(s));
    SameRecordsCalm(s, Pop(s));
    CalmKeepsRoots(s, Pop(s), -1);
    if !s.tab.fibers[pos].connecting {
      StepKeepsRoots(Pop(s), pos, oracle, 0);
    } else if reply.Address? {
      AddressCanStep(s, reply);
      SameRecordsCalm(Pop(s), HaveAddress(Pop(s), pos));
      CalmKeepsRoots(Pop(s), HaveAddress(Pop(s), pos), -1);
      if !reply.registered {
        StepKeepsRoots(HaveAddress(Pop(s), pos), pos, oracle, 0);
      }
    }
    hide Settled, RootsOk, Calm, StepInto;
  }

  lemma TimeoutRoots(s: State, pos: nat, rearmed: bool, oracle: nat -> Burst)
    requires Settled(s) && Allowed(s, TimedOut(pos, rearmed)) && RootsOk(s, -1) && TimeoutStep(s, pos, rearmed, oracle).Done?
    ensures RootsOk(TimeoutStep(s, pos, rearmed, oracle).s, -1)
  {
    var f := s.tab.fibers[pos];
    if f.wtoken {
      TimeoutSettled(s, pos, rearmed);
      var s' := Put(s, pos, AfterTimeout(f, rearmed));
      SameRecordsCalm(s, s');
      CalmKeepsRoots(s, s', -1);
      if !(f.connecting && f.timedOut > 1) {
        StepKeepsRoots(s', pos, oracle, 0);
      }
    }
    hide Settled, RootsOk, Calm, StepInto;
  }

  lemma {:induction false} RootsKeepNothing(events: seq<Event>, s: State)
    requires Reaches(events, s)
    ensures RootsOk(s, -1)
    decreases |events|
  {
    if events != [] {
      var last := |events| - 1;
      var p: State, oracle: nat -> Burst, next: nat :|
        RunFrom(Start(), events[..last], p) && Leads(p, events[last], oracle, s, next);
      RootsKeepNothing(events[..last], p);
      EventKeepsRoots(p, events[last], oracle);
    }
  }

  // Main result on delivery to the main stack, for every disciplined run without join_main: what a
  // parentless fiber handed over is exactly the values that its bursts ended with, in order; nothing of
  // it is pending and nothing was lost. What the main stack has not fetched yet is in the results.
  lemma RootsDeliver(events: seq<Event>, s: State, trace: seq<Sent>, i: nat)
    requires Traced(events, s, trace) && !s.log.joined && i < |s.tab.fibers|
    requires s.tab.fibers[i].parent.None? && s.tab.fibers[i].func
    ensures From(s.log.main, s.tab.fibers[i].birth) == From(trace, s.tab.fibers[i].birth)
    ensures s.tab.fibers[i].result.None?
    ensures s.log.popped <= |s.log.main| && s.results == Values(s.log.main[s.log.popped..])
  {
    var b := s.tab.fibers[i].birth;
    SentIsTraced(events, s, trace, b);
    RootsKeepNothing(events, s);
    ResponsesDelivered(events, s, i);
    assert RootOk(s, i, -1);
  }

  // And for a fiber of any kind: what was taken from it, with what is pending, is what its bursts ended
  // with, exactly when nothing of it was dropped.
  lemma FibersDeliver(events: seq<Event>, s: State, trace: seq<Sent>, i: nat)
    requires Traced(events, s, trace) && !s.log.joined && i < |s.tab.fibers|
    ensures var f := s.tab.fibers[i];
            && f.birth < |s.log.got| && f.birth < |s.log.dropped|
            && (s.log.got[f.birth] + Pending(f.result) == From(trace, f.birth) <==> s.log.dropped[f.birth] == 0)
  {
    SentIsTraced(events, s, trace, s.tab.fibers[i].birth);
    ResponsesDelivered(events, s, i);
  }
}
