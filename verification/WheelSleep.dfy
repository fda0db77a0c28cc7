// How exact the reported next timeout is. It never comes after an armed timeout; here: when it is the
// least armed instant, which steps make it too early, and a run in which it lies in the past.
module WheelSleep {
  import opened Wrappers
  import opened Sequences
  import opened Bits
  import opened WheelSpec
  import opened WheelTheorems
  import opened WheelRuns

  // The timeouts that a slot's minimum was collected from: in the current slot, once the walk over it has
  // begun, those walked over.
  function Noted(m: Model, slot: nat): seq<Token>
    requires Inv(m) && slot < |m.lists|
  {
    if slot == CurSlot(m) && m.passed != [] then m.passed else m.lists[slot]
  }

  ghost predicate IsFor(m: Model, toks: seq<Token>, when: nat) {
    exists t :: t in toks && t in m.timers && m.timers[t].when == when
  }

  ghost predicate TightAt(m: Model, slot: nat)
    requires Inv(m) && slot < |m.lists|
  {
    m.nexts[slot].Some? ==> IsFor(m, Noted(m, slot), m.nexts[slot].value)
  }

  // Every slot minimum is the instant of a timeout that it was collected from and that is still armed.
  ghost predicate Tight(m: Model)
    requires Inv(m)
  {
    forall slot: nat :: slot < |m.lists| ==> TightAt(m, slot)
  }

  // ---------- which steps keep the minima tight ----------

  // Arming does, except into the current slot while the cursor stands at the head of a list that is not
  // empty, for an instant behind the slot's minimum: the walk to come will not clear that minimum.
  lemma ArmKeepsTightIff(m: Model, tok: Token, at: nat, task: nat)
    requires Inv(m) && Tight(m) && tok !in m.timers
    ensures Inv(Arm(m, tok, at, task))
    ensures var m' := Arm(m, tok, at, task);
            var slot, when := m'.timers[tok].slot, m'.timers[tok].when;
            Tight(m') <==>
              !(slot == CurSlot(m) && m.passed == [] && m.left != [] && m.nexts[slot].Some? && m.nexts[slot].value < when)
  {
    ArmKeepsInv(m, tok, at, task);
    var m' := Arm(m, tok, at, task);
    var slot := m'.timers[tok].slot;
    forall i: nat | i < |m.lists| && i != slot ensures TightAt(m', i) {
      assert TightAt(m, i);
      KeepsFor(m, m', Noted(m, i), tok);
    }
    assert tok in Noted(m', slot);
    assert TightAt(m, slot);
    if m.nexts[slot].Some? && m.nexts[slot].value < m'.timers[tok].when {
      KeepsFor(m, m', Noted(m, slot), tok);
      assert Noted(m', slot) == if slot == CurSlot(m) && m.passed == [] && m.left != [] then [tok] else [tok] + Noted(m, slot);
      assert TightAt(m', slot) <==> !(slot == CurSlot(m) && m.passed == [] && m.left != []);
    } else {
      assert m'.nexts[slot] == Some(m'.timers[tok].when);
      assert TightAt(m', slot);
    }
  }

  // Timeouts that were not touched are still there.
  lemma KeepsFor(m: Model, m': Model, toks: seq<Token>, tok: Token)
    requires forall t :: t in toks && t in m.timers && t != tok ==> t in m'.timers && m'.timers[t] == m.timers[t]
    requires tok !in m.timers
    ensures forall when :: IsFor(m, toks, when) ==> IsFor(m', toks, when)
  {
  }

  // Cancelling does, unless the timeout was the last with its slot's minimum.
  lemma RemoveKeepsTightIff(m: Model, tok: Token)
    requires Inv(m) && Tight(m) && tok in m.timers
    ensures Inv(Remove(m, tok))
    ensures var slot, when := m.timers[tok].slot, m.timers[tok].when;
            Tight(Remove(m, tok)) <==> m.nexts[slot] != Some(when) || IsFor(m, Noted(Remove(m, tok), slot), when)
  {
    RemoveKeepsInv(m, tok);
    var m' := Remove(m, tok);
    var slot := m.timers[tok].slot;
    RemovedNoted(m, tok);
    forall i: nat | i < |m.lists| && (i != slot || m.nexts[i] != Some(m.timers[tok].when)) ensures TightAt(m', i) {
      assert TightAt(m, i);
      if m.nexts[i].Some? {
        var t :| t in Noted(m, i) && t in m.timers && m.timers[t].when == m.nexts[i].value;
        NotedInSlot(m, i, t);
        assert t != tok;
        assert t in Noted(m', i);
      }
    }
    assert tok !in Noted(m', slot);
    assert forall when :: IsFor(m, Noted(m', slot), when) <==> IsFor(m', Noted(m', slot), when);
    assert TightAt(m', slot) <==> m.nexts[slot] != Some(m.timers[tok].when) || IsFor(m, Noted(m', slot), m.timers[tok].when);
  }

  lemma NotedInSlot(m: Model, slot: nat, t: Token)
    requires Inv(m) && slot < |m.lists| && t in Noted(m, slot)
    ensures t in m.timers && m.timers[t].slot == slot
  {
    LeftIsArmed(m);
    assert t in m.lists[slot];
  }

  lemma RemovedNoted(m: Model, tok: Token)
    requires Inv(m) && tok in m.timers && Inv(Remove(m, tok))
    ensures forall i: nat, t :: i < |m.lists| && t in Noted(m, i) && t != tok ==> t in Noted(Remove(m, tok), i)
    ensures forall i: nat :: i < |m.lists| ==> tok !in Noted(Remove(m, tok), i)
  {
    var m' := Remove(m, tok);
    LeftIsArmed(m);
    WithoutElements(m.passed, tok);
    WithoutElements(m.lists[m.timers[tok].slot], tok);
    forall i: nat, t | i < |m.lists| && t in Noted(m, i) && t != tok ensures t in Noted(m', i) {
      NotedInSlot(m, i, t);
    }
    forall i: nat | i < |m.lists| ensures tok !in Noted(m', i) {
      if tok in Noted(m', i) {
        NotedInSlot(m', i, tok);
      }
    }
  }

  lemma AdvanceKeepsTight(m: Model)
    requires Inv(m) && Tight(m) && m.left == []
    ensures Inv(Advance(m)) && Tight(Advance(m))
  {
    AdvanceKeepsInv(m);
    var m' := Advance(m);
    forall i: nat | i < |m.lists| ensures TightAt(m', i) {
      assert TightAt(m, i);
      assert m.lists[CurSlot(m)] == m.passed;
    }
  }

  lemma ClearKeepsTight(m: Model)
    requires Inv(m) && Tight(m)
    ensures Inv(ClearAtHead(m)) && Tight(ClearAtHead(m))
  {
    ClearKeepsInv(m);
    forall i: nat | i < |m.lists| ensures TightAt(ClearAtHead(m), i) {
      assert TightAt(m, i);
    }
  }

  lemma SkipKeepsTight(m: Model)
    requires Inv(m) && Tight(m) && m.left != []
    ensures Inv(Skip(m)) && Tight(Skip(m))
  {
    SkipKeepsInv(m);
    ClearKeepsTight(m);
    LeftIsArmed(m);
    var c, m' := ClearAtHead(m), Skip(m);
    forall i: nat | i < |m.lists| ensures TightAt(m', i) {
      assert TightAt(c, i);
      if i == CurSlot(m) {
        assert m.left[0] in Noted(m', i);
        assert forall t :: t in m.passed ==> t in Noted(m', i);
      }
    }
  }

  // Firing clears the minimum at the head of the list, and behind it the minimum is another's.
  lemma FireKeepsTight(m: Model)
    requires Inv(m) && Tight(m) && m.left != []
    ensures Inv(Fire(m)) && Tight(Fire(m))
  {
    ClearKeepsTight(m);
    LeftIsArmed(m);
    var c := ClearAtHead(m);
    var tok := m.left[0];
    RemoveKeepsTightIff(c, tok);
    var slot := CurSlot(m);
    if c.nexts[slot] == Some(m.timers[tok].when) {
      assert TightAt(c, slot);
      var t :| t in Noted(c, slot) && t in c.timers && c.timers[t].when == m.timers[tok].when;
      assert t in m.passed;
      RemovedNoted(c, tok);
      assert t in Noted(Remove(c, tok), slot);
    }
  }

  lemma {:induction false} PollKeepsTight(m: Model, now: nat)
    requires Inv(m) && Tight(m)
    ensures Tight(Poll(m, now).0)
    decreases if m.cur <= now then now + 1 - m.cur else 0, |m.left|
  {
    if m.cur <= now {
      if m.left == [] {
        AdvanceKeepsTight(m);
        PollKeepsTight(Advance(m), now);
      } else {
        LeftIsArmed(m);
        if Tick(m, m.timers[m.left[0]]) > now {
          SkipKeepsTight(m);
          PollKeepsTight(Skip(m), now);
        } else {
          FireKeepsTight(m);
        }
      }
    }
  }

  // ---------- runs ----------

  // A step that keeps the minima tight, told from the wheel before it.
  ghost predicate KeepsMinima(r: Run, op: Op)
    requires Inv(r.m)
  {
    var m := r.m;
    match op
    case SetTimeoutOp(tok, at, _) =>
      var tick := EffectiveTick(m, at);
      var slot := tick % |m.lists|;
      !(slot == CurSlot(m) && m.passed == [] && m.left != [] && m.nexts[slot].Some? && m.nexts[slot].value < TickStart(m.tickMs, tick))
    case CancelOp(tok) =>
      tok in m.timers ==>
        (RemoveKeepsInv(m, tok);
         var slot, when := m.timers[tok].slot, m.timers[tok].when;
         m.nexts[slot] != Some(when) || IsFor(m, Noted(Remove(m, tok), slot), when))
    case _ => true
  }

  lemma StepKeepsTightIff(r: Run, op: Op)
    requires Inv(r.m) && Tight(r.m) && Allowed(r, op)
    ensures Inv(Step(r, op).m)
    ensures Tight(Step(r, op).m) <==> KeepsMinima(r, op)
  {
    match op
    case ReserveOp(tok) =>
      ReserveKeepsInv(r.m, tok);
      ReserveKeepsTight(r.m, tok);
    case SetTimeoutOp(tok, at, task) =>
      ArmKeepsTightIff(r.m, tok, at, task);
    case CancelOp(tok) =>
      RemoveKeepsInv(r.m, tok);
      if tok in r.m.timers {
        RemoveKeepsTightIff(r.m, tok);
      } else {
        ReserveKeepsTight(r.m, tok);
      }
    case PollOp(at) =>
      PollKeepsTight(r.m, TimeToTicks(r.m.tickMs, at));
  }

  lemma ReserveKeepsTight(m: Model, tok: Token)
    requires Inv(m) && Tight(m) && tok !in m.timers
    ensures Inv(Reserve(m, tok)) && Tight(Reserve(m, tok))
    ensures Inv(Remove(m, tok)) && Tight(Remove(m, tok))
  {
    ReserveKeepsInv(m, tok);
    RemoveKeepsInv(m, tok);
    forall i: nat | i < |m.lists| ensures TightAt(Reserve(m, tok), i) && TightAt(Remove(m, tok), i) {
      assert TightAt(m, i);
    }
  }

  ghost predicate ReachesTightly(tickMs: nat, numSlots: nat, ops: seq<Op>, r: Run)
    decreases |ops|
  {
    if ops == [] then r == Start(tickMs, numSlots)
    else
      var last := |ops| - 1;
      exists p: Run :: ReachesTightly(tickMs, numSlots, ops[..last], p) && LeadsTightly(p, ops[last], r)
  }

  ghost predicate LeadsTightly(p: Run, op: Op, r: Run) {
    Inv(p.m) && Allowed(p, op) && r == Step(p, op) && KeepsMinima(p, op)
  }

  lemma {:induction false} TightRuns(tickMs: nat, numSlots: nat, ops: seq<Op>, r: Run)
    requires tickMs > 0 && numSlots > 0 && ReachesTightly(tickMs, numSlots, ops, r)
    ensures Reaches(tickMs, numSlots, ops, r) && Inv(r.m) && Tight(r.m)
    decreases |ops|
  {
    if ops == [] {
      CreateKeepsInv(tickMs, numSlots);
    } else {
      var last := |ops| - 1;
      var p: Run :| ReachesTightly(tickMs, numSlots, ops[..last], p) && LeadsTightly(p, ops[last], r);
      TightRuns(tickMs, numSlots, ops[..last], p);
      StepKeepsTightIff(p, ops[last]);
    }
  }

  // Main result on the reported next timeout: in every such run, after a poll that returned nothing and
  // any timeouts set or cancelled since, it is exactly the least armed instant, and nothing is reported
  // exactly when nothing is armed.
  lemma SleepIsExact(tickMs: nat, numSlots: nat, ops: seq<Op>, r: Run)
    requires tickMs > 0 && numSlots > 0 && ReachesTightly(tickMs, numSlots, ops, r) && r.drained
    ensures MinNext(r.m.nexts).None? <==> r.m.timers == map[]
    ensures MinNext(r.m.nexts).Some? ==>
      && (exists t :: t in r.m.timers && r.m.timers[t].when == MinNext(r.m.nexts).value)
      && (forall t :: t in r.m.timers ==> MinNext(r.m.nexts).value <= r.m.timers[t].when)
  {
    TightRuns(tickMs, numSlots, ops, r);
    SleepIsSafe(tickMs, numSlots, ops, r);
    MinNextIsLeast(r.m.nexts);
    if MinNext(r.m.nexts).Some? {
      var i :| 0 <= i < |r.m.nexts| && r.m.nexts[i] == MinNext(r.m.nexts);
      assert TightAt(r.m, i);
    }
    if r.m.timers != map[] {
      var t :| t in r.m.timers;
    }
  }

  // ---------- how long a stale minimum lasts ----------

  // The cursor has passed the slot since tick `since`.
  ghost predicate Passed(m: Model, slot: nat, since: nat)
    requires |m.lists| > 0
  {
    exists tick: nat :: PassedAt(m, slot, since, tick)
  }

  ghost predicate PassedAt(m: Model, slot: nat, since: nat, tick: nat)
    requires |m.lists| > 0
  {
    since <= tick < m.cur && tick % |m.lists| == slot
  }

  // What the cursor has passed since then is tight, and so is what it has begun to walk over.
  ghost predicate Tightened(m: Model, since: nat)
    requires Inv(m)
  {
    && (forall slot: nat :: slot < |m.lists| && Passed(m, slot, since) && (slot != CurSlot(m) || m.passed == []) ==> TightAt(m, slot))
    && (m.cur >= since && m.passed != [] ==> TightAt(m, CurSlot(m)))
  }

  // Going on to the next tick leaves the minima that were tight so, and clears that of an empty list.
  lemma AdvanceKeepsTightAt(m: Model, slot: nat)
    requires Inv(m) && m.left == [] && slot < |m.lists|
    requires TightAt(m, slot) || (slot == CurSlot(m) && m.passed == [])
    ensures Inv(Advance(m)) && TightAt(Advance(m), slot)
  {
    AdvanceKeepsInv(m);
    assert m.lists[CurSlot(m)] == m.passed;
  }

  lemma AdvanceTightens(m: Model, since: nat)
    requires Inv(m) && m.left == [] && Tightened(m, since) && m.cur + 1 >= since
    ensures Inv(Advance(m)) && Tightened(Advance(m), since)
  {
    AdvanceKeepsInv(m);
    var m' := Advance(m);
    assert m'.passed == [] && m'.cur == m.cur + 1 && |m'.lists| == |m.lists|;
    hide Inv, TightAt, Advance;
    forall slot: nat | slot < |m.lists| && Passed(m', slot, since) ensures TightAt(m', slot) {
      var tick: nat :| PassedAt(m', slot, since, tick);
      if slot != CurSlot(m) {
        assert PassedAt(m, slot, since, tick);
      }
      AdvanceKeepsTightAt(m, slot);
    }
  }

  lemma SkipTightens(m: Model, since: nat)
    requires Inv(m) && m.left != [] && Tightened(m, since)
    ensures Inv(Skip(m)) && Tightened(Skip(m), since)
  {
    SkipKeepsInv(m);
    LeftIsArmed(m);
    var m' := Skip(m);
    forall slot: nat | slot < |m.lists| && Passed(m', slot, since) && slot != CurSlot(m) ensures TightAt(m', slot) {
      var tick: nat :| PassedAt(m', slot, since, tick);
      assert PassedAt(m, slot, since, tick);
      assert TightAt(m, slot);
    }
    var cur := CurSlot(m);
    assert m.left[0] in Noted(m', cur);
    assert forall t :: t in m.passed ==> t in Noted(m', cur);
    assert m'.cur >= since && m.passed != [] ==> TightAt(m, cur);
    if m.passed == [] {
      assert m'.nexts[cur] == Some(m.timers[m.left[0]].when);
      assert TightAt(m', cur);
    }
  }

  // Firing leaves the minima that were tight so, in the current slot once its walk has begun.
  lemma FireKeepsTightAt(m: Model, slot: nat)
    requires Inv(m) && m.left != [] && slot < |m.lists| && TightAt(m, slot) && (slot != CurSlot(m) || m.passed != [])
    ensures Inv(Fire(m)) && TightAt(Fire(m), slot)
  {
    ClearKeepsInv(m);
    LeftIsArmed(m);
    var c, tok := ClearAtHead(m), m.left[0];
    RemoveKeepsInv(c, tok);
    RemovedNoted(c, tok);
    if m.nexts[slot].Some? {
      var t :| t in Noted(m, slot) && t in m.timers && m.timers[t].when == m.nexts[slot].value;
      NotedInSlot(m, slot, t);
      assert t != tok;
      assert t in Noted(c, slot);
      assert t in Noted(Fire(m), slot);
    }
  }

  lemma FireTightens(m: Model, since: nat)
    requires Inv(m) && m.left != [] && Tightened(m, since)
    ensures Inv(Fire(m)) && Tightened(Fire(m), since)
  {
    ClearKeepsInv(m);
    LeftIsArmed(m);
    RemoveKeepsInv(ClearAtHead(m), m.left[0]);
    WithoutAbsent(m.passed, m.left[0]);
    var m' := Fire(m);
    assert m'.passed == m.passed && m'.cur == m.cur && |m'.lists| == |m.lists|;
    hide Inv, TightAt, Fire;
    forall slot: nat | slot < |m.lists| && Passed(m', slot, since) && (slot != CurSlot(m) || m.passed == []) ensures TightAt(m', slot) {
      var tick: nat :| PassedAt(m', slot, since, tick);
      assert PassedAt(m, slot, since, tick);
      if slot != CurSlot(m) {
        FireKeepsTightAt(m, slot);
      } else {
        FireAtHead(m);
      }
    }
    if m.cur >= since && m.passed != [] {
      FireKeepsTightAt(m, CurSlot(m));
    }
  }

  // Firing at the head of a list clears its minimum.
  lemma FireAtHead(m: Model)
    requires Inv(m) && m.left != [] && m.passed == []
    ensures Inv(Fire(m)) && TightAt(Fire(m), CurSlot(m))
  {
    ClearKeepsInv(m);
    RemoveKeepsInv(ClearAtHead(m), m.left[0]);
    LeftIsArmed(m);
  }

  lemma {:induction false} PollTightens(m: Model, now: nat, since: nat)
    requires Inv(m) && Tightened(m, since) && m.cur + 1 >= since
    ensures Tightened(Poll(m, now).0, since) && Poll(m, now).0.cur >= m.cur
    ensures Poll(m, now).1.None? ==> Poll(m, now).0.cur > now && (m.cur <= now ==> Poll(m, now).0.passed == [])
    decreases if m.cur <= now then now + 1 - m.cur else 0, |m.left|
  {
    if m.cur <= now {
      if m.left == [] {
        AdvanceTightens(m, since);
        PollTightens(Advance(m), now, since);
      } else {
        LeftIsArmed(m);
        if Tick(m, m.timers[m.left[0]]) > now {
          SkipTightens(m, since);
          PollTightens(Skip(m), now, since);
        } else {
          FireTightens(m, since);
        }
      }
    }
  }

  lemma {:induction false} DrainTightens(m: Model, now: nat, since: nat)
    requires Inv(m) && Tightened(m, since) && m.cur + 1 >= since && m.cur <= now
    ensures var m' := Drain(m, now).0; Tightened(m', since) && m'.cur > now && m'.passed == []
    decreases |m.timers|
  {
    PollTightens(m, now, since);
    var (m1, tok) := Poll(m, now);
    DrainUnfolds(m, now);
    if tok.Some? {
      PollTakesOnlyTheFired(m, now);
      SmallerMap(m.timers, tok.value);
      StillBehind(m, now);
      DrainTightens(m1, now, since);
    }
  }

  lemma {:induction false} StillBehind(m: Model, now: nat)
    requires Inv(m) && Poll(m, now).1.Some?
    ensures Poll(m, now).0.cur <= now
    decreases if m.cur <= now then now + 1 - m.cur else 0, |m.left|
  {
    if m.cur <= now {
      if m.left == [] {
        AdvanceKeepsInv(m);
        StillBehind(Advance(m), now);
      } else {
        LeftIsArmed(m);
        if Tick(m, m.timers[m.left[0]]) > now {
          SkipKeepsInv(m);
          StillBehind(Skip(m), now);
        }
      }
    }
  }

  // Main result on stale minima: a drain that takes the cursor a whole turn ahead leaves none, whatever
  // was there before.
  lemma TurnClearsStale(m: Model, now: nat)
    requires Inv(m) && now >= m.cur + |m.lists|
    ensures Tight(Drain(m, now).0)
  {
    var since := m.cur + 1;
    assert Tightened(m, since) by {
      forall slot: nat | slot < |m.lists| ensures !Passed(m, slot, since) {
      }
    }
    DrainTightens(m, now, since);
    var m' := Drain(m, now).0;
    forall slot: nat | slot < |m'.lists| ensures TightAt(m', slot) {
      var tick := TickInTurn(since, |m'.lists|, slot);
      assert PassedAt(m', slot, since, tick);
    }
  }

  // Every slot is met within a turn.
  lemma TickInTurn(a: nat, n: nat, slot: nat) returns (tick: nat)
    requires slot < n
    ensures a <= tick < a + n && tick % n == slot
  {
    var q, r := a / n, a % n;
    if slot >= r {
      tick := q * n + slot;
      RemainderUnique(tick, n, q, slot);
    } else {
      tick := (q + 1) * n + slot;
      RemainderUnique(tick, n, q + 1, slot);
    }
  }

  // ---------- runs in which it is too early ----------

  // A cancelled timeout is still reported, although nothing is armed.
  lemma CancelLeavesStale() returns (ops: seq<Op>, r: Run)
    ensures Reaches(1, 2, ops, r) && r.drained && r.m.timers == map[] && MinNext(r.m.nexts).Some?
  {
    hide Reaches;
    StartIsGood(2);
    var ops1, p := ArmOne(2, [], Start(1, 2), 0, 1);
    Extend(1, 2, ops1, p, CancelOp(0));
    SleepBound(p.m);
    ops, r := ops1 + [CancelOp(0)], Step(p, CancelOp(0));
  }

  // A timeout is armed a turn ahead into the slot whose walk is about to begin. The timeout that was there
  // fires, and its instant, which is past, is reported although the other one is due two ticks later.
  lemma FiredLeavesStale() returns (ops: seq<Op>, r: Run)
    ensures Reaches(1, 2, ops, r) && r.drained && r.last == 1
    ensures r.m.timers.Keys == {1} && Tick(r.m, r.m.timers[1]) == 3
    ensures MinNext(r.m.nexts).Some? && TimeToTicks(1, MinNext(r.m.nexts).value) <= 1
  {
    hide Reaches, Good, Inv, TimeToTicks;
    StartIsGood(2);
    var ops1, r1 := ArmOne(2, [], Start(1, 2), 0, 1);
    TickOfMillis(0);
    var r2 := PollAhead(2, ops1, r1, 0);
    var ops2 := ops1 + [PollOp(0 * NANOS_PER_MILLI)];
    TwoSlots(r2);
    var ops3, r3 := ArmAhead(ops2, r2);
    var ops4, r4 := FiresFirst(ops3, r3);
    ops, r := EndsIdle(ops4, r4);
  }

  lemma TwoSlots(r: Run)
    requires Good(r) && |r.m.lists| == 2 && r.m.cur == 1 && r.m.left == r.m.lists[1]
    ensures r.m.passed == []
  {
    assert r.m.lists[1] == r.m.passed + r.m.left;
  }

  // The wheel with a stale minimum: token 1, of tick 3, is noted in slot 1, whose minimum is of tick 1.
  ghost predicate StaleAt(r: Run, cur: nat, left: seq<Token>) {
    && Good(r) && r.m.tickMs == 1 && |r.m.lists| == 2 && r.m.cur == cur && r.m.left == left && r.last <= 1
    && 1 in r.m.timers && Tick(r.m, r.m.timers[1]) == 3 && r.m.lists[1] == [1] + (if cur == 1 then left else [])
    && r.m.nexts[1].Some? && TimeToTicks(1, r.m.nexts[1].value) <= 1
  }

  lemma ArmAhead(ops: seq<Op>, p: Run) returns (more: seq<Op>, r: Run)
    requires Reaches(1, 2, ops, p) && Good(p) && p.m.tickMs == 1 && |p.m.lists| == 2 && p.m.cur == 1 && p.last == 0 && p.drained
    requires p.m.timers.Keys == {0} && p.m.reserved == {} && p.m.passed == [] && p.m.left == p.m.lists[1] == [0]
    requires Tick(p.m, p.m.timers[0]) == 1
    ensures Reaches(1, 2, more, r) && StaleAt(r, 1, [0]) && r.m.timers.Keys == {0, 1} && Tick(r.m, r.m.timers[0]) == 1
  {
    hide Reaches, Good, Inv, TimeToTicks, Arm, FullyCovered;
    var at := 3 * NANOS_PER_MILLI;
    TickOfMillis(3);
    GoodIsSound(p);
    GoodIsCovered(p);
    ReserveKeepsGood(p, 1);
    var r1 := Step(p, ReserveOp(1));
    GoodIsSound(r1);
    SetTimeoutKeepsGood(r1, 1, at, 0);
    ArmedAhead(p.m);
    r := Step(r1, SetTimeoutOp(1, at, 0));
    Extend(1, 2, ops, p, ReserveOp(1));
    Extend(1, 2, ops + [ReserveOp(1)], r1, SetTimeoutOp(1, at, 0));
    more := ops + [ReserveOp(1)] + [SetTimeoutOp(1, at, 0)];
  }

  lemma GoodIsCovered(r: Run)
    requires Good(r) && r.drained
    ensures FullyCovered(r.m)
  {
  }

  lemma ArmedAhead(m: Model)
    requires Inv(m) && FullyCovered(m) && m.tickMs == 1 && |m.lists| == 2 && m.cur == 1
    requires m.timers.Keys == {0} && m.passed == [] && m.left == m.lists[1] == [0] && Tick(m, m.timers[0]) == 1
    ensures var m' := Arm(Reserve(m, 1), 1, 3 * NANOS_PER_MILLI, 0);
            && m'.tickMs == 1 && |m'.lists| == 2 == |m'.nexts| && m'.cur == 1 && m'.left == [0] && m'.lists[1] == [1, 0]
            && m'.timers.Keys == {0, 1} && m'.timers[0] == m.timers[0] && Tick(m', m'.timers[1]) == 3
            && m'.nexts[1].Some? && TimeToTicks(1, m'.nexts[1].value) <= 1
  {
    TickOfMillis(3);
    var r := Reserve(m, 1);
    ReserveKeepsInv(m, 1);
    ArmedTickExactIff(r, 1, 3 * NANOS_PER_MILLI, 0);
    assert 0 in m.lists[1] && m.timers[0].slot == 1;
    assert Covered(m, 0);
    hide Inv, FullyCovered, TimeToTicks, Arm, Covered;
    ArmedShape(r, 1, 3 * NANOS_PER_MILLI, 0);
    Earlier(Arm(r, 1, 3 * NANOS_PER_MILLI, 0).nexts[1].value, m.timers[0].when);
  }

  // What arming leaves in the slot and elsewhere.
  lemma ArmedShape(m: Model, tok: Token, at: nat, task: nat)
    requires Inv(m) && |m.lists| == |m.nexts| && m.tickMs > 0 && |m.lists| > 0
    ensures var m', slot := Arm(m, tok, at, task), EffectiveTick(m, at) % |m.lists|;
            && m'.tickMs == m.tickMs && m'.cur == m.cur && m'.left == m.left && |m'.lists| == |m'.nexts| == |m.lists|
            && m'.lists[slot] == [tok] + m.lists[slot] && m'.timers.Keys == m.timers.Keys + {tok}
            && (forall t :: t in m.timers && t != tok ==> m'.timers[t] == m.timers[t])
            && m'.nexts[slot].Some? && (m.nexts[slot].Some? ==> m'.nexts[slot].value <= m.nexts[slot].value)
  {
    hide Inv;
  }

  lemma Earlier(a: nat, b: nat)
    requires a <= b
    ensures TimeToTicks(1, a) <= TimeToTicks(1, b)
  {
    TicksOfNanos(1, a);
    TicksOfNanos(1, b);
  }

  lemma FiresFirst(ops: seq<Op>, p: Run) returns (more: seq<Op>, r: Run)
    requires Reaches(1, 2, ops, p) && StaleAt(p, 1, [0]) && p.m.timers.Keys == {0, 1} && Tick(p.m, p.m.timers[0]) == 1
    ensures Reaches(1, 2, more, r) && StaleAt(r, 1, []) && r.m.timers.Keys == {1}
  {
    hide Reaches;
    TickOfMillis(1);
    var op := PollOp(1 * NANOS_PER_MILLI);
    Extend(1, 2, ops, p, op);
    more, r := ops + [op], Step(p, op);
    PollKeepsGood(p, 1 * NANOS_PER_MILLI);
    FireShape(p.m);
    assert p.m.lists[1] == p.m.passed + p.m.left;
    assert p.m.passed == [1];
    assert Poll(p.m, 1) == (Fire(p.m), Some(0));
    assert r.m.lists[1] == r.m.passed + r.m.left;
  }

  lemma EndsIdle(ops: seq<Op>, p: Run) returns (more: seq<Op>, r: Run)
    requires Reaches(1, 2, ops, p) && StaleAt(p, 1, []) && p.m.timers.Keys == {1}
    ensures Reaches(1, 2, more, r) && r.drained && r.last == 1 && r.m.timers == p.m.timers && r.m.tickMs == 1
    ensures Tick(r.m, r.m.timers[1]) == 3
    ensures MinNext(r.m.nexts).Some? && TimeToTicks(1, MinNext(r.m.nexts).value) <= 1
  {
    hide Reaches;
    TickOfMillis(1);
    var op := PollOp(1 * NANOS_PER_MILLI);
    Extend(1, 2, ops, p, op);
    more, r := ops + [op], Step(p, op);
    AdvanceKeepsInv(p.m);
    assert Poll(p.m, 1) == Poll(Advance(p.m), 1) == (Advance(p.m), None);
    MinNextIsLeast(r.m.nexts);
    TicksOfNanos(1, p.m.nexts[1].value);
    TicksOfNanos(1, MinNext(r.m.nexts).value);
  }
}
