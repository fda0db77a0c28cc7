// Whole runs of a runner: what the main stack and the poller may do to it, in any order, and what
// holds after every disciplined run.
module FiberRuns {
  import opened Wrappers
  import opened Sequences
  import opened FiberTable
  import opened FiberState
  import opened FiberSpec
  import opened FiberSched

  // What the socket of a fiber that waits for a lookup delivers.
  datatype Reply = NoAddress | Address(registered: bool)

  datatype Event =
    | NewFiberEvent
    | RefusedListenerEvent
    | NewResponseTimer(resp: Resp, armed: bool)
    | NewFiberTimer(armed: bool)
    | NewResolve(armed: bool, timeout: nat, ok: bool)
    | DropTimer(pos: nat)
    | Signal(pos: nat)
    | Exec(reply: Reply)
    | TimedOut(pos: nat, rearmed: bool)
    | PopResponse
    | ResumeFiber(pos: nat, answer: Option<Resp>)

  // The discipline: no queue entry names a closed fiber, the main stack resumes only living fibers, a
  // lookup that was given up delivers no address, and a timer whose token is still held is cancelled
  // only if its fiber has no parent, has not started and holds the slot, or the slot was lost.
  ghost predicate Allowed(s: State, e: Event) {
    match e
    case DropTimer(pos) =>
      pos < |s.tab.fibers|
      && (s.tab.fibers[pos].wtoken ==> Cancellable(s.tab, pos))
    case Signal(pos) => pos < |s.tab.fibers|
    case Exec(reply) =>
      s.toexec != [] && Alive(s.tab, s.toexec[0])
      && (reply.Address? && s.tab.fibers[s.toexec[0]].connecting ==> s.tab.fibers[s.toexec[0]].wait.NotStarted?)
    case TimedOut(pos, _) => pos < |s.tab.fibers| && (s.tab.fibers[pos].wtoken ==> Alive(s.tab, pos))
    case ResumeFiber(pos, _) => Alive(s.tab, pos)
    case _ => true
  }

  predicate Cancellable(t: Table, pos: nat)
    requires pos < |t.fibers|
  {
    && pos !in t.free
    && (pos in t.lost || (t.fibers[pos].parent.None? && (t.fibers[pos].wait.NotStarted? || t.fibers[pos].wait.Dead?)))
  }

  ghost predicate Settled(s: State) {
    Good(s) && Quiet(s.tab)
  }

  // ---------- one event ----------

  // A timer that answers with a response by itself.
  function ResponseTimer(s: State, resp: Resp, armed: bool): State
    requires Good(s)
  {
    EnrollKeepsGood(s, false, false, None);
    var pos := NextSlot(s.tab);
    var s1 := Send(Enroll(s, false, false, None), pos, Some(resp));
    Put(s1, pos, s1.tab.fibers[pos].(wtoken := armed))
  }

  // A timer that runs a fiber.
  function FiberTimer(s: State, armed: bool): State
    requires Good(s)
  {
    var pos := NextSlot(s.tab);
    var s1 := Enroll(s, true, true, None);
    Put(s1, pos, s1.tab.fibers[pos].(wtoken := armed))
  }

  // The record of a fiber whose timer is given up. One that has started stays where it is.
  function Cancelled(f: Fiber): Fiber {
    f.(wtoken := false, param := false, wait := if f.wait.NotStarted? then Dead else f.wait)
  }

  function CancelTimer(s: State, pos: nat): State
    requires Good(s) && pos < |s.tab.fibers|
  {
    if !s.tab.fibers[pos].wtoken then s
    else
      assert SlotOk(s.tab, pos);
      var s1 := Send(s, pos, None);
      var s2 := Put(s1, pos, Cancelled(s1.tab.fibers[pos]));
      s2.(tab := Release(s2.tab, pos))
  }

  lemma PutSettled(s: State, pos: nat, f: Fiber)
    requires Settled(s) && pos < |s.tab.fibers| && Quietly(s.tab.fibers[pos], f) && !Vacant(s.tab, pos)
    requires !f.wait.Running? && !f.wait.Dead? && !s.tab.fibers[pos].wait.Dead?
    ensures Settled(Put(s, pos, f))
  {
    PutKeepsGood(s, pos, f);
    QuietAfterPut(s, pos, f, -1);
  }

  lemma ResponseTimerSettled(s: State, resp: Resp, armed: bool)
    requires Settled(s)
    ensures Settled(ResponseTimer(s, resp, armed))
  {
    var pos := NextSlot(s.tab);
    EnrollKeepsGood(s, false, false, None);
    EnrollQuiet(s, false, false, None, -1);
    var s0 := Enroll(s, false, false, None);
    assert SlotOk(s0.tab, pos);
    SendKeepsGood(s0, pos, Some(resp));
    QuietAfterPut(s0, pos, s0.tab.fibers[pos].(result := Some(resp)), -1);
    var s1 := Send(s0, pos, Some(resp));
    PutSettled(s1, pos, s1.tab.fibers[pos].(wtoken := armed));
  }

  lemma FiberTimerSettled(s: State, armed: bool)
    requires Settled(s)
    ensures Settled(FiberTimer(s, armed))
  {
    var pos := NextSlot(s.tab);
    EnrollKeepsGood(s, true, true, None);
    EnrollQuiet(s, true, true, None, -1);
    var s1 := Enroll(s, true, true, None);
    PutSettled(s1, pos, s1.tab.fibers[pos].(wtoken := armed));
  }

  lemma CancelTimerSettled(s: State, pos: nat)
    requires Settled(s) && Allowed(s, DropTimer(pos))
    ensures Settled(CancelTimer(s, pos))
  {
    if s.tab.fibers[pos].wtoken {
      assert SlotOk(s.tab, pos) && SlotQuiet(s.tab, pos);
      SendKeepsGood(s, pos, None);
      var s1 := Send(s, pos, None);
      var f := Cancelled(s1.tab.fibers[pos]);
      PutKeepsGood(s1, pos, f);
      var s2 := Put(s1, pos, f);
      CancelReleases(s, s2, pos);
    }
  }

  lemma CancelReleases(s: State, s2: State, pos: nat)
    requires Settled(s) && Good(s2) && pos < |s.tab.fibers| && pos !in s.tab.free
    requires s2.tab.free == s.tab.free && s2.tab.lost == s.tab.lost && |s2.tab.fibers| == |s.tab.fibers|
    requires forall i: nat :: i < |s.tab.fibers| && i != pos ==> s2.tab.fibers[i] == s.tab.fibers[i]
    requires var f := s2.tab.fibers[pos]; f.wait.Dead? && !f.t && f.result.None? && (pos in s.tab.lost || f.parent.None?)
    ensures Settled(s2.(tab := Release(s2.tab, pos)))
  {
    ReleaseKeepsGood(s2, pos);
    var t := Release(s2.tab, pos);
    forall i: nat | i < |t.fibers| && i != -1 ensures SlotQuiet(t, i) {
      if i != pos {
        assert SlotQuiet(s.tab, i);
      }
    }
  }

  // The lookup has answered: the fiber connects, and runs at once if that fails.
  function HaveAddress(s: State, pos: nat): State
    requires pos < |s.tab.fibers|
  {
    Put(s, pos, s.tab.fibers[pos].(wtoken := false, connecting := false, timedOut := 0))
  }

  // Takes the first entry of the queue of fibers to run.
  function Pop(s: State): State
    requires s.toexec != []
  {
    s.(toexec := s.toexec[1..])
  }

  lemma AddressCanStep(s: State, reply: Reply)
    requires Settled(s) && Allowed(s, Exec(reply)) && reply.Address? && s.tab.fibers[s.toexec[0]].connecting
    ensures CanStep(HaveAddress(Pop(s), s.toexec[0]), s.toexec[0])
  {
    var pos := s.toexec[0];
    QueuesDoNotMatter(s, Pop(s));
    assert SlotOk(s.tab, pos) && SlotQuiet(s.tab, pos);
    AliveIsNotNext(s.tab, pos);
    PutSettled(Pop(s), pos, HaveAddress(Pop(s), pos).tab.fibers[pos]);
  }

  function ExecNext(s: State, reply: Reply, oracle: nat -> Burst): (r: Outcome)
    requires Settled(s) && Allowed(s, Exec(reply))
    ensures r.Done? ==> Settled(r.s) && r.s.tab.away == s.tab.away
  {
    var pos := s.toexec[0];
    QueuesDoNotMatter(s, Pop(s));
    assert SlotOk(s.tab, pos);
    if !s.tab.fibers[pos].connecting then StepInto(Pop(s), pos, oracle, 0)
    else if reply.NoAddress? then Done(Pop(s), 0)
    else
      AliveIsNotNext(s.tab, pos);
      assert SlotQuiet(s.tab, pos);
      PutSettled(Pop(s), pos, HaveAddress(Pop(s), pos).tab.fibers[pos]);
      if reply.registered then Done(HaveAddress(Pop(s), pos), 0) else StepInto(HaveAddress(Pop(s), pos), pos, oracle, 0)
  }

  // The record of a fiber whose timer has gone off.
  function AfterTimeout(f: Fiber, rearmed: bool): Fiber {
    if !f.connecting then f.(wtoken := false, timedOut := 1)
    else if f.timedOut > 1 then f.(wtoken := rearmed, timedOut := f.timedOut - 1)
    else f.(wtoken := false, timedOut := 0)
  }

  lemma TimeoutSettled(s: State, pos: nat, rearmed: bool)
    requires Settled(s) && Allowed(s, TimedOut(pos, rearmed)) && s.tab.fibers[pos].wtoken
    ensures Settled(Put(s, pos, AfterTimeout(s.tab.fibers[pos], rearmed)))
    ensures s.tab.fibers[pos].connecting ==> s.tab.fibers[pos].timedOut > 0
  {
    assert SlotOk(s.tab, pos) && SlotQuiet(s.tab, pos);
    AliveIsNotNext(s.tab, pos);
    PutSettled(s, pos, AfterTimeout(s.tab.fibers[pos], rearmed));
  }

  // A timer goes off: a lookup counts down, and when it has run out, or for any other fiber, the
  // fiber is switched into.
  function TimeoutStep(s: State, pos: nat, rearmed: bool, oracle: nat -> Burst): (r: Outcome)
    requires Settled(s) && Allowed(s, TimedOut(pos, rearmed))
    ensures r.Done? ==> Settled(r.s) && r.s.tab.away == s.tab.away
  {
    var f := s.tab.fibers[pos];
    if !f.wtoken then Done(s, 0)
    else
      TimeoutSettled(s, pos, rearmed);
      var s' := Put(s, pos, AfterTimeout(f, rearmed));
      if f.connecting && f.timedOut > 1 then Done(s', 0) else StepInto(s', pos, oracle, 0)
  }

  function Fetch(s: State): State {
    if s.results == [] then s
    else s.(results := s.results[1..], log := s.log.(popped := s.log.popped + 1))
  }

  lemma FetchSettled(s: State)
    requires Settled(s)
    ensures Settled(Fetch(s))
  {
    if s.results != [] {
      var s' := Fetch(s);
      var rest := s.log.main[s.log.popped..];
      assert rest[1..] == s.log.main[s.log.popped + 1..];
      assert Values(rest)[1..] == Values(rest[1..]);
      SameOccupants(s, s');
      if !s.log.joined {
        forall j: nat | j < |s'.tab.fibers| ensures SlotBalanced(s', j) {
          assert SlotBalanced(s, j);
        }
      }
    }
  }

  // The main stack answers a fiber that waits in join_main.
  function Answer(s: State, pos: nat, answer: Option<Resp>): State
    requires pos < |s.tab.fibers|
  {
    Put(s, pos, s.tab.fibers[pos].(result := answer)).(toexec := s.toexec + [pos], log := s.log.(joined := true))
  }

  lemma AnswerSettled(s: State, pos: nat, answer: Option<Resp>)
    requires Settled(s) && Allowed(s, ResumeFiber(pos, answer))
    ensures Settled(Answer(s, pos, answer))
  {
    AliveIsNotNext(s.tab, pos);
    assert SlotOk(s.tab, pos) && SlotQuiet(s.tab, pos);
    WithKeepsInv(s.tab, pos, s.tab.fibers[pos].(result := answer));
    QuietAfterPut(s, pos, s.tab.fibers[pos].(result := answer), -1);
  }

  function Step(s: State, e: Event, oracle: nat -> Burst): (r: Outcome)
    requires Settled(s) && Allowed(s, e)
    ensures r.Done? ==> Settled(r.s) && r.s.tab.away == s.tab.away
  {
    match e
    case NewFiberEvent =>
      SpawnKeeps(s, None, true, -1);
      Done(SpawnFiber(s, None, true), 0)
    case RefusedListenerEvent =>
      RefuseKeeps(s, -1);
      Done(Refuse(s), 0)
    case NewResponseTimer(resp, armed) =>
      ResponseTimerSettled(s, resp, armed);
      Done(ResponseTimer(s, resp, armed), 0)
    case NewFiberTimer(armed) =>
      FiberTimerSettled(s, armed);
      Done(FiberTimer(s, armed), 0)
    case NewResolve(armed, timeout, ok) =>
      ResolveKeeps(s, None, armed, timeout, ok, -1);
      Done(ResolveFiber(s, None, armed, timeout, ok), 0)
    case DropTimer(pos) =>
      CancelTimerSettled(s, pos);
      Done(CancelTimer(s, pos), 0)
    case Signal(pos) =>
      QueuesDoNotMatter(s, s.(toexec := s.toexec + [pos]));
      Done(s.(toexec := s.toexec + [pos]), 0)
    case Exec(reply) => ExecNext(s, reply, oracle)
    case TimedOut(pos, rearmed) => TimeoutStep(s, pos, rearmed, oracle)
    case PopResponse =>
      FetchSettled(s);
      Done(Fetch(s), 0)
    case ResumeFiber(pos, answer) =>
      AnswerSettled(s, pos, answer);
      Done(Answer(s, pos, answer), 0)
  }

  // ---------- runs ----------

  lemma StartSettled()
    ensures Settled(Start())
  {
    forall k: nat ensures StackOk(Start().tab, k) {
    }
  }

  // The states that disciplined runs reach, with any fiber functions.
  ghost predicate Reaches(events: seq<Event>, s: State) {
    RunFrom(Start(), events, s)
  }

  ghost predicate RunFrom(s0: State, events: seq<Event>, s: State)
    decreases |events|
  {
    if events == [] then s == s0
    else
      var last := |events| - 1;
      exists p: State, oracle: nat -> Burst, next: nat ::
        RunFrom(s0, events[..last], p) && Leads(p, events[last], oracle, s, next)
  }

  lemma ExecIsStep(s: State, oracle: nat -> Burst)
    requires Settled(s) && Allowed(s, Exec(NoAddress)) && !s.tab.fibers[s.toexec[0]].connecting
    ensures Settled(Pop(s)) && CanStep(Pop(s), s.toexec[0])
    ensures Step(s, Exec(NoAddress), oracle) == StepInto(Pop(s), s.toexec[0], oracle, 0)
  {
    QueuesDoNotMatter(s, Pop(s));
  }

  // One event of a disciplined run.
  ghost predicate Leads(p: State, e: Event, oracle: nat -> Burst, s: State, next: nat) {
    Settled(p) && Allowed(p, e) && Step(p, e, oracle) == Done(s, next)
  }

  lemma {:induction false} EveryRunIsSettled(events: seq<Event>, s: State)
    requires Reaches(events, s)
    ensures Settled(s)
    decreases |events|
  {
    if events == [] {
      StartSettled();
    }
  }

  // A runner that has the pool to itself.
  lemma {:induction false} NothingAway(events: seq<Event>, s: State)
    requires Reaches(events, s)
    ensures s.tab.away == {}
    decreases |events|
  {
    if events != [] {
      var last := |events| - 1;
      var p: State, oracle: nat -> Burst, next: nat :|
        RunFrom(Start(), events[..last], p) && Leads(p, events[last], oracle, s, next);
      NothingAway(events[..last], p);
    }
  }

  lemma Extend(events: seq<Event>, p: State, e: Event, oracle: nat -> Burst, s: State, next: nat)
    requires Reaches(events, p) && Settled(p) && Allowed(p, e) && Step(p, e, oracle) == Done(s, next)
    ensures Reaches(events + [e], s)
  {
    hide Settled, Allowed, Step;
    assert Leads(p, e, oracle, s, next);
    hide Leads;
    var more := events + [e];
    assert more[..|events|] == events && more[|events|] == e;
  }

  // Main result on slots: the free list has no repetition and names no fiber that is alive or waits
  // to be reaped; a fiber is a child exactly once, of exactly the fiber it calls its parent; and
  // parents are older than their children.
  lemma SlotTableSound(events: seq<Event>, s: State, i: nat)
    requires Reaches(events, s) && i < |s.tab.fibers|
    ensures var t := s.tab;
            && multiset(t.free)[i] <= 1
            && (Vacant(t, i) ==> !Alive(t, i) && forall p: nat :: p < |t.fibers| ==> i !in t.fibers[p].children)
            && (forall p: nat :: p < |t.fibers| ==>
                 multiset(t.fibers[p].children)[i] == if !Vacant(t, i) && t.fibers[i].parent == Some(p) then 1 else 0)
            && (!Vacant(t, i) && t.fibers[i].parent.Some? ==>
                 var p := t.fibers[i].parent.value;
                 p < |t.fibers| && Alive(t, p) && !Vacant(t, p) && t.fibers[p].birth < t.fibers[i].birth)
  {
    EveryRunIsSettled(events, s);
    var t := s.tab;
    assert SlotOk(t, i);
    NoDupCounts(t.free, i);
    forall p: nat | p < |t.fibers|
      ensures multiset(t.fibers[p].children)[i] == if !Vacant(t, i) && t.fibers[i].parent == Some(p) then 1 else 0
      ensures Vacant(t, i) ==> i !in t.fibers[p].children
    {
      ChildOnce(t, i, p);
    }
    if !Vacant(t, i) && t.fibers[i].parent.Some? {
      ParentOlder(t, i);
    }
  }

  lemma ChildOnce(t: Table, i: nat, p: nat)
    requires Inv(t) && i < |t.fibers| && p < |t.fibers|
    ensures multiset(t.fibers[p].children)[i] == if !Vacant(t, i) && t.fibers[i].parent == Some(p) then 1 else 0
    ensures Vacant(t, i) ==> i !in t.fibers[p].children
  {
    assert SlotOk(t, i) && SlotOk(t, p);
    NoDupCounts(t.fibers[p].children, i);
    if i in t.fibers[p].children {
      assert ChildOk(t, p, i);
    }
  }

  lemma ParentOlder(t: Table, i: nat)
    requires Inv(t) && i < |t.fibers| && !Vacant(t, i) && t.fibers[i].parent.Some?
    ensures var p := t.fibers[i].parent.value;
            p < |t.fibers| && Alive(t, p) && !Vacant(t, p) && t.fibers[p].birth < t.fibers[i].birth
  {
    var p := t.fibers[i].parent.value;
    assert SlotOk(t, i) && ParentOk(t, i, p);
    assert SlotOk(t, p);
  }

  // Following parents never comes back: a chain of occupied slots, each the parent of the one before,
  // goes to ever older fibers.
  lemma ParentsAcyclic(events: seq<Event>, s: State, path: seq<nat>)
    requires Reaches(events, s) && |path| > 1
    requires forall j :: 0 <= j < |path| ==> path[j] < |s.tab.fibers| && !Vacant(s.tab, path[j])
    requires forall j :: 0 < j < |path| ==> s.tab.fibers[path[j - 1]].parent == Some(path[j])
    ensures s.tab.fibers[path[|path| - 1]].birth < s.tab.fibers[path[0]].birth
    ensures path[|path| - 1] != path[0]
  {
    EveryRunIsSettled(events, s);
    OlderAlong(s.tab, path, |path| - 1);
  }

  lemma {:induction false} OlderAlong(t: Table, path: seq<nat>, k: nat)
    requires Inv(t) && 0 < k < |path|
    requires forall j :: 0 <= j < |path| ==> path[j] < |t.fibers| && !Vacant(t, path[j])
    requires forall j :: 0 < j < |path| ==> t.fibers[path[j - 1]].parent == Some(path[j])
    ensures t.fibers[path[k]].birth < t.fibers[path[0]].birth
  {
    assert t.fibers[path[k - 1]].parent == Some(path[k]);
    ParentOlder(t, path[k - 1]);
    if k > 1 {
      OlderAlong(t, path, k - 1);
    }
  }

  // Main result on stacks: on the main stack a fiber holds a stack exactly when it holds a transfer
  // and is started, and each stack ever made is in the pool once or held by exactly one fiber.
  lemma StacksConserved(events: seq<Event>, s: State, k: nat)
    requires Reaches(events, s)
    ensures var t := s.tab;
            && (forall i: nat :: i < |t.fibers| ==> (t.fibers[i].stack.Some? <==> t.fibers[i].t))
            && (forall i: nat :: i < |t.fibers| ==> (t.fibers[i].t <==> t.fibers[i].state.Stacked?))
            && (k < t.made ==> multiset(t.stacks)[k] + (if exists i :: Holds(t, i, k) then 1 else 0) == 1)
            && (forall i, j :: Holds(t, i, k) && Holds(t, j, k) ==> i == j)
  {
    EveryRunIsSettled(events, s);
    NothingAway(events, s);
    forall i: nat | i < |s.tab.fibers|
      ensures s.tab.fibers[i].stack.Some? <==> s.tab.fibers[i].t
      ensures s.tab.fibers[i].t <==> s.tab.fibers[i].state.Stacked?
    {
      assert SlotOk(s.tab, i) && SlotQuiet(s.tab, i);
    }
    assert StackOk(s.tab, k);
    NoDupCounts(s.tab.stacks, k);
  }

  // Main result on responses, for runs without join_main: what was taken from a fiber, together with
  // a response still pending, is what it sent, in order and once each, exactly when none of its
  // responses was overwritten or cancelled; and what a parentless fiber handed over went to the main
  // stack.
  lemma ResponsesDelivered(events: seq<Event>, s: State, i: nat)
    requires Reaches(events, s) && !s.log.joined && i < |s.tab.fibers|
    ensures var f := s.tab.fibers[i];
            && f.birth < |s.log.sent| && f.birth < |s.log.got| && f.birth < |s.log.dropped|
            && (s.log.sent[f.birth] == s.log.got[f.birth] + Pending(f.result) <==> s.log.dropped[f.birth] == 0)
            && (f.parent.None? ==> From(s.log.main, f.birth) == s.log.got[f.birth])
            && s.log.popped <= |s.log.main| && s.results == Values(s.log.main[s.log.popped..])
  {
    EveryRunIsSettled(events, s);
    assert SlotBalanced(s, i);
  }

  // The same for fibers whose slot has been reused since.
  lemma OldResponsesDelivered(events: seq<Event>, s: State, b: nat)
    requires Reaches(events, s) && !s.log.joined && b < s.tab.births && !Occupied(s, b)
    ensures b < |s.log.sent| && b < |s.log.got| && b < |s.log.dropped|
    ensures s.log.sent[b] == s.log.got[b] <==> s.log.dropped[b] == 0
  {
    EveryRunIsSettled(events, s);
    assert Balanced(s.log, b, []);
  }
}
