// What the main stack gets from a runner: where a new fiber goes, what a timer answers, what is fetched
// and what a fiber in join_main is given.
module FiberEvents {
  import opened Wrappers
  import opened Sequences
  import opened FiberTable
  import opened FiberState
  import opened FiberSpec
  import opened FiberSched
  import opened FiberFrames
  import opened FiberRuns
  import opened FiberSwitches

  // ---------- new fibers ----------

  // The slot of a new fiber: the one that was given back first, or else a new one at the end.
  function FirstFree(t: Table): nat {
    if t.free == [] then |t.fibers| else t.free[0]
  }

  // A new fiber stands in that slot, which is free no more; its parent, if it has one, has it as its last
  // child; no other record changes, and its birth number is new.
  ghost predicate Placed(t: Table, t': Table, f: Fiber, parent: Option<nat>) {
    var x := FirstFree(t);
    && f.parent == parent && f.birth == t.births && t'.births == t.births + 1
    && |t'.fibers| == (if t.free == [] then |t.fibers| + 1 else |t.fibers|) && x < |t'.fibers| && t'.fibers[x] == f
    && t'.free == (if t.free == [] then [] else t.free[1..]) && t'.lost == t.lost && t'.stacks == t.stacks && t'.made == t.made
    && (forall i: nat :: i < |t.fibers| && i < |t'.fibers| && i != x && Some(i) != parent ==> t'.fibers[i] == t.fibers[i])
    && (parent.Some? ==>
          parent.value < |t.fibers| && parent.value < |t'.fibers|
          && t'.fibers[parent.value] == t.fibers[parent.value].(children := t.fibers[parent.value].children + [x]))
  }

  // A fiber that has not started, has no children, response, stack or lookup, and a timer or none.
  function Fresh(func: bool, parent: Option<nat>, birth: nat, timer: bool, result: Option<Resp>): Fiber {
    Fiber(Unstacked, func, func, false, None, parent, [], result, timer, false, 0, NotStarted, birth)
  }

  lemma EnrollPlaces(s: State, func: bool, parent: Option<nat>)
    requires Inv(s.tab) && (parent.Some? ==> parent.value < |s.tab.fibers| && parent.value != FirstFree(s.tab))
    ensures var s' := Enroll(s, func, func, parent);
            && Placed(s.tab, s'.tab, Fresh(func, parent, s.tab.births, false, None), parent)
            && s'.toexec == s.toexec && s'.tomain == s.tomain && s'.results == s.results
            && s'.log == s.log.(sent := s.log.sent + [[]], got := s.log.got + [[]], dropped := s.log.dropped + [0])
  {
    NextSlotIsFree(s.tab);
  }

  // A fiber started by the main stack or by another fiber is queued at the end, or not.
  lemma SpawnPlaces(s: State, parent: Option<nat>, schedule: bool)
    requires Inv(s.tab) && (parent.Some? ==> parent.value < |s.tab.fibers| && parent.value != FirstFree(s.tab))
    ensures var s' := SpawnFiber(s, parent, schedule);
            && Placed(s.tab, s'.tab, Fresh(true, parent, s.tab.births, false, None), parent)
            && s'.toexec == s.toexec + (if schedule then [FirstFree(s.tab)] else [])
  {
    EnrollPlaces(s, true, parent);
    assert s.toexec + [] == s.toexec;
  }

  // A fiber that waits for a lookup is placed like any other, with its countdown in ticks of 250 ms, and not
  // queued.
  lemma LookupPlaced(s: State, parent: Option<nat>, armed: bool, timeout: nat)
    requires Inv(s.tab) && (parent.Some? ==> parent.value < |s.tab.fibers| && parent.value != FirstFree(s.tab))
    ensures var s', n := ResolveFiber(s, parent, armed, timeout, true), timeout / 250_000_000;
            var f := Fresh(true, parent, s.tab.births, armed, None);
            && Placed(s.tab, s'.tab, f.(connecting := true, timedOut := if n == 0 then 1 else if n <= 255 then n else 255), parent)
            && s'.toexec == s.toexec && s'.results == s.results
  {
    assert timeout / 1_000_000 / 250 == timeout / 250_000_000;
    EnrollPlaces(s, true, parent);
    NextSlotIsFree(s.tab);
    hide Inv, Enroll;
  }

  // A lookup that cannot be started leaves every other record as it was; its slot holds no fiber, and is
  // given back, as the last of the free ones, if its timer was set.
  lemma FailedLookup(s: State, parent: Option<nat>, armed: bool, timeout: nat)
    requires Inv(s.tab) && (parent.Some? ==> parent.value < |s.tab.fibers| && parent.value != FirstFree(s.tab))
    ensures var x, s' := FirstFree(s.tab), ResolveFiber(s, parent, armed, timeout, false);
            && (forall i: nat :: i < |s.tab.fibers| && i != x ==> i < |s'.tab.fibers| && s'.tab.fibers[i] == s.tab.fibers[i])
            && x < |s'.tab.fibers| && s'.tab.fibers[x].wait.Dead? && s'.tab.fibers[x].parent.None? && !s'.tab.fibers[x].param
            && !s'.tab.fibers[x].wtoken && !s'.tab.fibers[x].connecting && s'.tab.fibers[x].result.None?
            && s'.tab.free == (if s.tab.free == [] then [] else s.tab.free[1..]) + (if armed then [x] else [])
            && s'.toexec == s.toexec && s'.results == s.results
  {
    EnrollPlaces(s, true, parent);
    NextSlotIsFree(s.tab);
    var x := FirstFree(s.tab);
    var s1 := Enroll(s, true, true, parent);
    assert parent.Some? ==>
      var cs := s1.tab.fibers[parent.value].children;
      cs[..|cs| - 1] == s.tab.fibers[parent.value].children;
    var s2 := Put(s1, x, s1.tab.fibers[x].(wtoken := armed, timedOut := LookupTicks(timeout)));
    FailedUnfolds(s, parent, armed, timeout, s2);
    hide Inv, Enroll, Disown, ResolveFiber;
    UndoneRecords(s.tab, s2.tab, x, parent);
    assert s1.tab.free + [] == s1.tab.free;
  }

  // The failing path: the registration is undone, and the timer's slot is given back.
  lemma FailedUnfolds(s: State, parent: Option<nat>, armed: bool, timeout: nat, s2: State)
    requires Inv(s.tab) && (parent.Some? ==> parent.value < |s.tab.fibers| && parent.value != NextSlot(s.tab))
    requires NextSlot(s.tab) < |Enroll(s, true, true, parent).tab.fibers|
    requires var s1, x := Enroll(s, true, true, parent), NextSlot(s.tab);
             s2 == Put(s1, x, s1.tab.fibers[x].(wtoken := armed, timedOut := LookupTicks(timeout)))
    requires var f := s2.tab.fibers[NextSlot(s.tab)];
             f.parent.Some? ==> f.parent.value < |s2.tab.fibers| && s2.tab.fibers[f.parent.value].children != []
    ensures var x, t3 := NextSlot(s.tab), Disown(s2.tab, NextSlot(s.tab));
            && |t3.fibers| == |s2.tab.fibers|
            && ResolveFiber(s, parent, armed, timeout, false) ==
               s2.(tab := if armed then Release(With(t3, x, t3.fibers[x].(wtoken := false)), x) else t3)
  {
    hide Inv, Enroll;
  }

  // Undoing the registration of the newest child.
  lemma UndoneRecords(t: Table, t2: Table, x: nat, parent: Option<nat>)
    requires |t.fibers| <= |t2.fibers| && x < |t2.fibers| && t2.fibers[x].parent == parent
    requires forall i: nat :: i < |t.fibers| && i != x && Some(i) != parent ==> t2.fibers[i] == t.fibers[i]
    requires parent.Some? ==>
      && parent.value < |t.fibers| && parent.value != x
      && var f, g := t.fibers[parent.value], t2.fibers[parent.value];
         g.children != [] && g.children[..|g.children| - 1] == f.children && g.(children := f.children) == f
    ensures var t3 := Disown(t2, x);
            && |t3.fibers| == |t2.fibers| && t3.free == t2.free
            && (forall i: nat :: i < |t.fibers| && i != x ==> t3.fibers[i] == t.fibers[i])
            && t3.fibers[x] == t2.fibers[x].(param := false, parent := None, wait := Dead)
  {
  }

  // A timer is a parentless fiber with nothing to run and its response pending, or with a function and
  // nothing pending; neither is queued.
  lemma TimersPlaced(s: State, resp: Resp, armed: bool)
    requires Settled(s)
    ensures Placed(s.tab, ResponseTimer(s, resp, armed).tab, Fresh(false, None, s.tab.births, armed, Some(resp)), None)
    ensures Placed(s.tab, FiberTimer(s, armed).tab, Fresh(true, None, s.tab.births, armed, None), None)
    ensures ResponseTimer(s, resp, armed).toexec == FiberTimer(s, armed).toexec == s.toexec
    ensures ResponseTimer(s, resp, armed).results == FiberTimer(s, armed).results == s.results
  {
    EnrollKeepsGood(s, false, false, None);
    EnrollPlaces(s, false, None);
    EnrollPlaces(s, true, None);
    NextSlotIsFree(s.tab);
    hide Good, Register;
  }

  // ---------- timers ----------

  // When a timer that answers by itself goes off, its response is the last of the results, and its slot the
  // last of the free ones.
  lemma TimerAnswers(s: State, pos: nat, rearmed: bool, oracle: nat -> Burst)
    requires Settled(s) && Alive(s.tab, pos) && s.tab.fibers[pos].wtoken && !s.tab.fibers[pos].func
    ensures Allowed(s, TimedOut(pos, rearmed)) && Step(s, TimedOut(pos, rearmed), oracle).Done?
    ensures var s' := Step(s, TimedOut(pos, rearmed), oracle).s;
            && s'.results == s.results + Pending(s.tab.fibers[pos].result)
            && s'.tab.free == s.tab.free + [pos] && s'.toexec == s.toexec
  {
    assert SlotOk(s.tab, pos) && SlotQuiet(s.tab, pos);
    TimeoutSettled(s, pos, rearmed);
    var s1 := Put(s, pos, AfterTimeout(s.tab.fibers[pos], rearmed));
    assert CanStep(s1, pos);
    FunclessBack(s1, pos);
    RootSettles(Close(s1, pos), pos, oracle, 1);
    hide Settled, CanStep, Back, SteppedOut;
  }

  // The timer of a fiber with a function switches into it, which can tell it from being woken otherwise.
  lemma TimerStarts(s: State, pos: nat, rearmed: bool, oracle: nat -> Burst)
    requires Settled(s) && Alive(s.tab, pos) && s.tab.fibers[pos].wtoken && !s.tab.fibers[pos].connecting
    ensures Allowed(s, TimedOut(pos, rearmed))
    ensures var s1 := Put(s, pos, s.tab.fibers[pos].(wtoken := false, timedOut := 1));
            CanStep(s1, pos) && Step(s, TimedOut(pos, rearmed), oracle) == StepInto(s1, pos, oracle, 0)
  {
    TimeoutSettled(s, pos, rearmed);
    hide StepInto;
  }

  // A timer that is given up answers nothing and starts nothing; its slot is the last of the free ones.
  lemma CancelMeans(s: State, pos: nat, rearmed: bool, oracle: nat -> Burst)
    requires Settled(s) && Allowed(s, DropTimer(pos)) && s.tab.fibers[pos].wtoken
    ensures var s' := CancelTimer(s, pos);
            && Settled(s') && pos < |s'.tab.fibers| && s'.tab.fibers == s.tab.fibers[pos := s'.tab.fibers[pos]]
            && !s'.tab.fibers[pos].wtoken && s'.tab.fibers[pos].result.None? && !s'.tab.fibers[pos].param && !Alive(s'.tab, pos)
            && s'.tab.free == s.tab.free + [pos] && s'.results == s.results && s'.toexec == s.toexec && s'.log.sent == s.log.sent
            && Step(s', TimedOut(pos, rearmed), oracle) == Done(s', 0)
  {
    CancelTimerSettled(s, pos);
    assert SlotOk(s.tab, pos) && SlotQuiet(s.tab, pos);
    var b := s.tab.fibers[pos].birth;
    assert s.log.sent[b] + [] == s.log.sent[b];
    assert s.log.sent == s.log.sent[b := s.log.sent[b]];
  }

  // ---------- results and answers ----------

  // The main stack fetches what was handed over in that order: the next result is the first response
  // not fetched yet, and there is none exactly when all were fetched.
  lemma FetchedInOrder(s: State)
    requires Settled(s)
    ensures s.results == [] <==> s.log.popped == |s.log.main|
    ensures s.results != [] ==>
      && s.log.popped < |s.log.main| && s.results[0] == s.log.main[s.log.popped].value
      && Fetch(s).results == s.results[1..] && Fetch(s).log.popped == s.log.popped + 1
      && Fetch(s).tab == s.tab && Fetch(s).toexec == s.toexec && Fetch(s).log.main == s.log.main
  {
    assert |Values(s.log.main[s.log.popped..])| == |s.log.main| - s.log.popped;
  }

  // A fiber that waits in join_main keeps its answer until it wakes up, when the answer is taken.
  lemma AnswerWaits(s: State, pos: nat, answer: Option<Resp>)
    requires Settled(s) && Allowed(s, ResumeFiber(pos, answer))
    ensures var s' := Answer(s, pos, answer);
            && Settled(s') && s'.tab == s.tab.(fibers := s.tab.fibers[pos := s.tab.fibers[pos].(result := answer)])
            && s'.toexec == s.toexec + [pos] && s'.results == s.results
            && (s.tab.fibers[pos].wait.AtJoin? ==> WakeUp(s', pos).tab.fibers[pos].result.None?)
  {
    AnswerSettled(s, pos, answer);
  }

  // ---------- get_child ----------

  // Child c handed over v: the response is its parent's, and c goes on at the end of the queue, or is
  // reaped if it has closed.
  ghost predicate HandedOver(s: State, s': State, p: nat, c: nat, v: Resp)
    requires p < |s.tab.fibers| && p < |s'.tab.fibers|
  {
    && c in s.tab.fibers[p].children && c < |s.tab.fibers| && c < |s'.tab.fibers| && s.tab.fibers[c].result == Some(v)
    && s'.tab.fibers[c].result.None? && (c in s'.tab.fibers[p].children <==> !s.tab.fibers[c].state.Closed?)
    && s'.toexec == s.toexec + (if s.tab.fibers[c].state.Closed? then [] else [c])
    && var b := s.tab.fibers[c].birth;
       b < |s.log.got| && s'.log.got == s.log.got[b := s.log.got[b] + [v]]
  }

  // The children that are gone had closed, and their slots are free.
  ghost predicate Reaped(s: State, s': State, p: nat)
    requires p < |s.tab.fibers| && p < |s'.tab.fibers|
  {
    var cs, cs' := s.tab.fibers[p].children, s'.tab.fibers[p].children;
    && (forall c :: c in cs' ==> c in cs)
    && (forall c :: c in cs && c !in cs' ==> c < |s.tab.fibers| && s.tab.fibers[c].state.Closed? && c in s'.tab.free)
    && |s'.tab.free| + |cs'| == |s.tab.free| + |cs| && s.tab.free <= s'.tab.free
  }

  ghost predicate Takes(s: State, s': State, p: nat, r: Iter) {
    && p < |s.tab.fibers| && p < |s'.tab.fibers| && Reaped(s, s', p) && s'.results == s.results && s'.tomain == s.tomain
    && (r.Got? ==> exists c :: HandedOver(s, s', p, c, r.value))
    && (!r.Got? ==> s'.toexec == s.toexec && s'.log == s.log)
  }

  // get_child takes the response it returns from one child, which goes on, and none if it returns none.
  lemma {:induction false} GetChildTakes(s: State, p: nat)
    requires Scene(s, p)
    ensures Takes(s, ChildIter(s, p).0, p, ChildIter(s, p).1)
    decreases |s.tab.fibers[p].children|
  {
    SceneFacts(s, p);
    var cs := s.tab.fibers[p].children;
    if cs != [] && FirstReady(s.tab, cs, 0) < |cs| {
      var k := FirstReady(s.tab, cs, 0);
      TakeChildScene(s, p, k);
      TakenOnce(s, p, k);
      var s1 := TakeChild(s, p, k);
      ChildIterUnfolds(s, p, k);
      hide Scene, ChildIter, TakeChild, FirstReady, HandedOver, Reaped, SameChildren, Takes;
      if s.tab.fibers[cs[k]].result.None? {
        GetChildTakes(s1, p);
        TakesLater(s, s1, ChildIter(s1, p).0, p, ChildIter(s1, p).1);
      } else {
        TakesAtOnce(s, s1, p, cs[k], s.tab.fibers[cs[k]].result.value);
      }
    }
  }

  lemma ChildIterUnfolds(s: State, p: nat, k: nat)
    requires Scene(s, p) && forall j :: 0 <= j < |s.tab.fibers[p].children| ==> s.tab.fibers[p].children[j] < |s.tab.fibers|
    requires k == FirstReady(s.tab, s.tab.fibers[p].children, 0) < |s.tab.fibers[p].children|
    requires ChildOk(s.tab, p, s.tab.fibers[p].children[k]) && SlotOk(s.tab, s.tab.fibers[p].children[k])
    requires Scene(TakeChild(s, p, k), p)
    ensures var result := s.tab.fibers[s.tab.fibers[p].children[k]].result;
            ChildIter(s, p) == if result.Some? then (TakeChild(s, p, k), Got(result.value)) else ChildIter(TakeChild(s, p, k), p)
  {
    hide Scene, TakeChild, FirstReady;
  }

  lemma TakesAtOnce(s: State, s': State, p: nat, c: nat, v: Resp)
    requires p < |s.tab.fibers| && p < |s'.tab.fibers| && Reaped(s, s', p) && s'.results == s.results && s'.tomain == s.tomain
    requires HandedOver(s, s', p, c, v)
    ensures Takes(s, s', p, Got(v))
  {
  }

  lemma TakesLater(s: State, s1: State, s': State, p: nat, r: Iter)
    requires p < |s.tab.fibers| && p < |s1.tab.fibers| && Takes(s1, s', p, r)
    requires Reaped(s, s1, p) && SameChildren(s, s1, p) && s1.toexec == s.toexec && s1.log == s.log
    requires s1.results == s.results && s1.tomain == s.tomain
    ensures Takes(s, s', p, r)
  {
    hide Reaped, SameChildren, HandedOver;
    ReapedTwice(s, s1, s', p);
    if r.Got? {
      var c :| HandedOver(s1, s', p, c, r.value);
      HandedOverLater(s, s1, s', p, c, r.value);
    }
  }

  // One turn of the loop.
  lemma TakenOnce(s: State, p: nat, k: nat)
    requires Scene(s, p) && k < |s.tab.fibers[p].children|
    requires ChildOk(s.tab, p, s.tab.fibers[p].children[k]) && SlotOk(s.tab, s.tab.fibers[p].children[k])
    requires ChildReady(s.tab, s.tab.fibers[p].children[k])
    ensures var c, s' := s.tab.fibers[p].children[k], TakeChild(s, p, k);
            && p < |s'.tab.fibers| && Reaped(s, s', p) && s'.results == s.results && s'.tomain == s.tomain
            && (s.tab.fibers[c].result.Some? ==> HandedOver(s, s', p, c, s.tab.fibers[c].result.value))
            && (s.tab.fibers[c].result.None? ==> s'.toexec == s.toexec && s'.log == s.log && SameChildren(s, s', p))
  {
    SceneFacts(s, p);
    var c := s.tab.fibers[p].children[k];
    assert c in s.tab.fibers[p].children;
    NothingGot(s, c);
    if s.tab.fibers[c].state.Closed? {
      TakenClosed(s, p, k);
    } else {
      TakenOpen(s, p, k);
    }
  }

  lemma NothingGot(s: State, c: nat)
    requires c < |s.tab.fibers| && Conserved(s) && s.tab.fibers[c].birth < s.tab.births
    ensures var b := s.tab.fibers[c].birth; s.log.got[b := s.log.got[b] + []] == s.log.got
  {
    var b := s.tab.fibers[c].birth;
    assert s.log.got[b] + [] == s.log.got[b];
  }

  lemma TakenClosed(s: State, p: nat, k: nat)
    requires Scene(s, p) && k < |s.tab.fibers[p].children| && s.tab.fibers[p].children[k] != p
    requires ChildOk(s.tab, p, s.tab.fibers[p].children[k]) && SlotOk(s.tab, s.tab.fibers[p].children[k])
    requires s.tab.fibers[s.tab.fibers[p].children[k]].state.Closed? && NoDup(s.tab.fibers[p].children)
    ensures var cs, s' := s.tab.fibers[p].children, TakeChild(s, p, k);
            var c := cs[k];
            && |s'.tab.fibers| == |s.tab.fibers| && s'.toexec == s.toexec && s'.results == s.results && s'.tomain == s.tomain
            && s'.tab.fibers[c] == s.tab.fibers[c].(result := None) && s'.tab.free == s.tab.free + [c] && c in s'.tab.free
            && (forall i: nat :: i < |s.tab.fibers| && i != c && i != p ==> s'.tab.fibers[i] == s.tab.fibers[i])
            && |s'.tab.fibers[p].children| == |cs| - 1 && (forall d :: d in s'.tab.fibers[p].children <==> d in cs && d != c)
            && var b := s.tab.fibers[c].birth;
               s'.log == s.log.(got := s.log.got[b := s.log.got[b] + Pending(s.tab.fibers[c].result)])
  {
    var cs := s.tab.fibers[p].children;
    SwapRemoveFrontRemoves(cs, k);
    var s' := TakeChild(s, p, k);
    hide Scene, NoDup;
    assert s'.tab.fibers[p].children == SwapRemoveFront(cs, k);
    assert s'.tab.free[|s.tab.free|] == cs[k];
  }

  lemma TakenOpen(s: State, p: nat, k: nat)
    requires Scene(s, p) && k < |s.tab.fibers[p].children| && s.tab.fibers[p].children[k] != p
    requires ChildOk(s.tab, p, s.tab.fibers[p].children[k]) && SlotOk(s.tab, s.tab.fibers[p].children[k])
    requires !s.tab.fibers[s.tab.fibers[p].children[k]].state.Closed?
    ensures var c, s' := s.tab.fibers[p].children[k], TakeChild(s, p, k);
            && s'.tab == s.tab.(fibers := s.tab.fibers[c := s.tab.fibers[c].(result := None)])
            && s'.toexec == s.toexec + [c] && s'.results == s.results && s'.tomain == s.tomain
            && var b := s.tab.fibers[c].birth;
               s'.log == s.log.(got := s.log.got[b := s.log.got[b] + Pending(s.tab.fibers[c].result)])
  {
    hide Scene;
  }

  // The children left are the same fibers, with their responses.
  ghost predicate SameChildren(s: State, s': State, p: nat)
    requires p < |s.tab.fibers| && p < |s'.tab.fibers|
  {
    && |s'.tab.fibers| == |s.tab.fibers|
    && forall c :: c in s'.tab.fibers[p].children ==>
         && c < |s.tab.fibers| && s'.tab.fibers[c].result == s.tab.fibers[c].result
         && s'.tab.fibers[c].state == s.tab.fibers[c].state && s'.tab.fibers[c].birth == s.tab.fibers[c].birth
  }

  lemma ReapedTwice(s: State, s1: State, s': State, p: nat)
    requires p < |s.tab.fibers| && p < |s1.tab.fibers| && p < |s'.tab.fibers|
    requires Reaped(s, s1, p) && Reaped(s1, s', p) && SameChildren(s, s1, p)
    ensures Reaped(s, s', p)
  {
    forall c | c in s.tab.fibers[p].children && c !in s'.tab.fibers[p].children
      ensures c < |s.tab.fibers| && s.tab.fibers[c].state.Closed? && c in s'.tab.free
    {
      if c !in s1.tab.fibers[p].children {
        assert c in s1.tab.free;
        var i :| 0 <= i < |s1.tab.free| && s1.tab.free[i] == c;
        assert s'.tab.free[i] == c;
      }
    }
  }

  lemma HandedOverLater(s: State, s1: State, s': State, p: nat, c: nat, v: Resp)
    requires p < |s.tab.fibers| && p < |s1.tab.fibers| && p < |s'.tab.fibers|
    requires Reaped(s, s1, p) && SameChildren(s, s1, p) && s1.toexec == s.toexec && s1.log == s.log
    requires HandedOver(s1, s', p, c, v)
    ensures HandedOver(s, s', p, c, v)
  {
  }
}
