// Whole runs of the timer wheel: any sequence of reservations, timeouts, cancellations and polls
// with a clock that does not go back.
module WheelRuns {
  import opened Wrappers
  import opened Sequences
  import opened Bits
  import opened WheelSpec
  import opened WheelTheorems

  datatype Op =
    | ReserveOp(tok: Token)
    | SetTimeoutOp(tok: Token, at: nat, task: nat)
    | CancelOp(tok: Token)
    | PollOp(at: nat)

  // The wheel and what is remembered about the run so far: the arming order, the tick of the last
  // poll, and whether that poll returned nothing.
  datatype Run = Run(m: Model, serial: map<Token, nat>, stamp: nat, last: nat, drained: bool)

  function Start(tickMs: nat, numSlots: nat): Run {
    Run(Create(tickMs, numSlots), map[], 0, 0, true)
  }

  // What callers owe: reserve hands out unused tokens, timeouts are set on reserved tokens within
  // the 32-bit tick range, and polling times do not decrease. Any token may be cancelled.
  ghost predicate Allowed(r: Run, op: Op)
    requires Inv(r.m)
  {
    match op
    case ReserveOp(tok) => tok !in r.m.timers && tok !in r.m.reserved
    case SetTimeoutOp(tok, at, _) => tok in r.m.reserved && EffectiveTick(r.m, at) < TWO_32
    case CancelOp(_) => true
    case PollOp(at) => TimeToTicks(r.m.tickMs, at) >= r.last
  }

  function Fired(r: Run, op: Op): Option<Token>
    requires Inv(r.m)
  {
    if op.PollOp? then Poll(r.m, TimeToTicks(r.m.tickMs, op.at)).1 else None
  }

  function Step(r: Run, op: Op): Run
    requires Inv(r.m)
  {
    match op
    case ReserveOp(tok) => r.(m := Reserve(r.m, tok))
    case SetTimeoutOp(tok, at, task) =>
      r.(m := Arm(r.m, tok, at, task), serial := r.serial[tok := r.stamp], stamp := r.stamp + 1)
    case CancelOp(tok) => r.(m := Remove(r.m, tok))
    case PollOp(at) =>
      var now := TimeToTicks(r.m.tickMs, at);
      var (m', fired) := Poll(r.m, now);
      r.(m := m', last := now, drained := fired.None?)
  }

  ghost predicate Good(r: Run) {
    && Inv(r.m) && TimeInv(r.m) && CoverInv(r.m) && LatestFirst(r.m, r.serial)
    && (forall t :: t in r.m.timers ==> t in r.serial && r.serial[t] < r.stamp)
    && (r.drained ==> FullyCovered(r.m))
    && (!r.drained ==> r.m.cur <= r.last)
    && r.m.cur <= r.last + 1
  }

  // The wheel seen from outside: which tokens are armed, with which task, for which tick.
  datatype Deadline = Deadline(task: nat, tick: nat)

  function View(m: Model): map<Token, Deadline>
    requires m.tickMs > 0
  {
    map t | t in m.timers :: Deadline(m.timers[t].task, Tick(m, m.timers[t]))
  }

  // One operation on the plain map. A poll may pick any due token, and picks none only if none is due.
  ghost predicate MapStep(before: map<Token, Deadline>, op: Op, tick: nat, fired: Option<Token>,
                          after: map<Token, Deadline>)
  {
    match op
    case ReserveOp(_) => after == before
    case SetTimeoutOp(tok, _, task) => after == before[tok := Deadline(task, tick)]
    case CancelOp(tok) => after == before - {tok}
    case PollOp(_) =>
      if fired.Some? then
        fired.value in before && before[fired.value].tick <= tick && after == before - {fired.value}
      else
        after == before && forall t :: t in before ==> before[t].tick > tick
  }

  // The tick an operation refers to: when a timeout is to fire, or the time of a poll.
  function TickOf(r: Run, op: Op): nat
    requires Inv(r.m)
  {
    match op
    case SetTimeoutOp(_, at, _) => EffectiveTick(r.m, at)
    case PollOp(at) => TimeToTicks(r.m.tickMs, at)
    case _ => 0
  }

  lemma ViewWithout(m: Model, m': Model, tok: Token)
    requires m.tickMs > 0 && m'.tickMs == m.tickMs && m'.timers == m.timers - {tok}
    ensures View(m') == View(m) - {tok}
  {
  }

  lemma SetTimeoutRefinesMap(m: Model, tok: Token, at: nat, task: nat)
    requires Inv(m) && tok !in m.timers && EffectiveTick(m, at) < TWO_32
    ensures View(Arm(m, tok, at, task)) == View(m)[tok := Deadline(task, EffectiveTick(m, at))]
  {
    ArmedTickExactIff(m, tok, at, task);
  }

  lemma PollRefinesMap(m: Model, at: nat)
    requires Inv(m) && TimeInv(m)
    ensures var tick := TimeToTicks(m.tickMs, at);
            MapStep(View(m), PollOp(at), tick, Poll(m, tick).1, View(Poll(m, tick).0))
  {
    var tick := TimeToTicks(m.tickMs, at);
    PollCorrect(m, tick);
    var (m', fired) := Poll(m, tick);
    if fired.Some? {
      ViewWithout(m, m', fired.value);
    }
  }

  lemma StepRefinesMap(r: Run, op: Op)
    requires Inv(r.m) && TimeInv(r.m) && Allowed(r, op)
    ensures Step(r, op).m.tickMs == r.m.tickMs
    ensures MapStep(View(r.m), op, TickOf(r, op), Fired(r, op), View(Step(r, op).m))
  {
    match op
    case ReserveOp(tok) =>
    case SetTimeoutOp(tok, at, task) => SetTimeoutRefinesMap(r.m, tok, at, task);
    case CancelOp(tok) => ViewWithout(r.m, Remove(r.m, tok), tok);
    case PollOp(at) => PollRefinesMap(r.m, at);
  }

  lemma SetTimeoutKeepsGood(r: Run, tok: Token, at: nat, task: nat)
    requires Good(r) && Allowed(r, SetTimeoutOp(tok, at, task))
    ensures Good(Step(r, SetTimeoutOp(tok, at, task)))
  {
    ArmKeepsTimeInv(r.m, tok, at, task);
    ArmKeepsCover(r.m, tok, at, task);
    ArmKeepsLatestFirst(r.m, r.serial, tok, at, task, r.stamp);
  }

  lemma CancelKeepsGood(r: Run, tok: Token)
    requires Good(r)
    ensures Good(Step(r, CancelOp(tok)))
  {
    RemoveKeepsTimeInv(r.m, tok);
    RemoveKeepsCover(r.m, tok);
    RemoveKeepsLatestFirst(r.m, r.serial, tok);
  }

  lemma PollKeepsGood(r: Run, at: nat)
    requires Good(r) && Allowed(r, PollOp(at))
    ensures Good(Step(r, PollOp(at)))
  {
    var now := TimeToTicks(r.m.tickMs, at);
    PollTakesOnlyTheFired(r.m, now);
    PollKeepsTime(r.m, now);
    PollCovers(r.m, now);
    PollKeepsLatestFirst(r.m, r.serial, now);
  }

  lemma ReserveKeepsGood(r: Run, tok: Token)
    requires Good(r) && Allowed(r, ReserveOp(tok))
    ensures Good(Step(r, ReserveOp(tok)))
  {
    ReserveKeepsInv(r.m, tok);
  }

  lemma StepKeepsGood(r: Run, op: Op)
    requires Good(r) && Allowed(r, op)
    ensures Good(Step(r, op))
  {
    match op
    case ReserveOp(tok) => ReserveKeepsGood(r, tok);
    case SetTimeoutOp(tok, at, task) => SetTimeoutKeepsGood(r, tok, at, task);
    case CancelOp(tok) => CancelKeepsGood(r, tok);
    case PollOp(at) => PollKeepsGood(r, at);
  }

  // The states a run from an empty wheel can be in.
  ghost predicate Reaches(tickMs: nat, numSlots: nat, ops: seq<Op>, r: Run)
    decreases |ops|
  {
    if ops == [] then r == Start(tickMs, numSlots)
    else
      var last := |ops| - 1;
      exists p: Run :: Reaches(tickMs, numSlots, ops[..last], p) && Inv(p.m) && Allowed(p, ops[last]) && r == Step(p, ops[last])
  }

  // Every run keeps the wheel sound.
  lemma {:induction false} EveryRunIsGood(tickMs: nat, numSlots: nat, ops: seq<Op>, r: Run)
    requires tickMs > 0 && numSlots > 0 && Reaches(tickMs, numSlots, ops, r)
    ensures Good(r)
    decreases |ops|
  {
    if ops == [] {
      CreateKeepsInv(tickMs, numSlots);
    } else {
      var last := |ops| - 1;
      var p: Run :| Reaches(tickMs, numSlots, ops[..last], p) && Inv(p.m) && Allowed(p, ops[last]) && r == Step(p, ops[last]);
      EveryRunIsGood(tickMs, numSlots, ops[..last], p);
      StepKeepsGood(p, ops[last]);
    }
  }

  // In every run, each operation changes the map of armed timeouts as its plain meaning says.
  lemma EveryRunRefinesMap(tickMs: nat, numSlots: nat, ops: seq<Op>, r: Run, op: Op)
    requires tickMs > 0 && numSlots > 0 && Reaches(tickMs, numSlots, ops, r)
    requires Inv(r.m) && Allowed(r, op)
    ensures Step(r, op).m.tickMs == r.m.tickMs
    ensures MapStep(View(r.m), op, TickOf(r, op), Fired(r, op), View(Step(r, op).m))
  {
    EveryRunIsGood(tickMs, numSlots, ops, r);
    StepRefinesMap(r, op);
  }

  // In every run, after a poll that returned nothing and any timeouts set or cancelled since, it is
  // safe to sleep until the reported next timeout.
  lemma SleepIsSafe(tickMs: nat, numSlots: nat, ops: seq<Op>, r: Run)
    requires tickMs > 0 && numSlots > 0 && Reaches(tickMs, numSlots, ops, r) && r.drained
    ensures forall t :: t in r.m.timers ==>
      MinNext(r.m.nexts).Some? && MinNext(r.m.nexts).value <= r.m.timers[t].when
  {
    EveryRunIsGood(tickMs, numSlots, ops, r);
    SleepBound(r.m);
  }

  // In every run, a timeout that is set is armed for the tick of its instant, or deferred to a tick at
  // most two after that of the last poll.
  lemma DeferralIsBounded(tickMs: nat, numSlots: nat, ops: seq<Op>, r: Run, at: nat)
    requires tickMs > 0 && numSlots > 0 && Reaches(tickMs, numSlots, ops, r)
    ensures Inv(r.m)
    ensures TimeToTicks(r.m.tickMs, at) <= EffectiveTick(r.m, at)
    ensures EffectiveTick(r.m, at) <= TimeToTicks(r.m.tickMs, at) || EffectiveTick(r.m, at) <= r.last + 2
  {
    EveryRunIsGood(tickMs, numSlots, ops, r);
  }

  // ---------- firing order, over runs ----------

  lemma Extend(tickMs: nat, numSlots: nat, ops: seq<Op>, p: Run, op: Op)
    requires Reaches(tickMs, numSlots, ops, p) && Inv(p.m) && Allowed(p, op)
    ensures Reaches(tickMs, numSlots, ops + [op], Step(p, op))
  {
    hide Inv, Allowed, Step;
    var more := ops + [op];
    assert more[..|ops|] == ops && more[|ops|] == op;
  }

  // Every run keeps the number of slots and the length of a tick, and at tick 0 nothing is left to visit.
  lemma {:induction false} RunShape(tickMs: nat, numSlots: nat, ops: seq<Op>, r: Run)
    requires tickMs > 0 && numSlots > 0 && Reaches(tickMs, numSlots, ops, r)
    ensures |r.m.lists| == numSlots && r.m.tickMs == tickMs && (r.m.cur == 0 ==> r.m.left == [])
    decreases |ops|
  {
    if ops != [] {
      var last := |ops| - 1;
      var p: Run :| Reaches(tickMs, numSlots, ops[..last], p) && Inv(p.m) && Allowed(p, ops[last]) && r == Step(p, ops[last]);
      RunShape(tickMs, numSlots, ops[..last], p);
      EveryRunIsGood(tickMs, numSlots, ops[..last], p);
      StepShape(p, ops[last]);
    }
  }

  lemma StepShape(p: Run, op: Op)
    requires Good(p) && Allowed(p, op) && (p.m.cur == 0 ==> p.m.left == [])
    ensures var m := Step(p, op).m;
            |m.lists| == |p.m.lists| && m.tickMs == p.m.tickMs && (m.cur == 0 ==> m.left == [])
  {
    match op
    case PollOp(at) => PollLeavesZero(p.m, TimeToTicks(p.m.tickMs, at));
    case _ =>
  }

  lemma PollLeavesZero(m: Model, now: nat)
    requires Inv(m) && TimeInv(m) && (m.cur == 0 ==> m.left == [])
    ensures Poll(m, now).0.cur > 0
  {
    if m.cur == 0 {
      var a := Advance(m);
      AdvanceKeepsTimeInv(m);
      assert Poll(m, now) == Poll(a, now);
      PollKeepsTime(a, now);
    } else {
      PollKeepsTime(m, now);
    }
  }

  // A poll that returns nothing leaves the cursor at the head of its list.
  lemma {:induction false} PollEndsAtHead(m: Model, now: nat)
    requires Inv(m) && m.cur <= now && Poll(m, now).1.None?
    ensures Poll(m, now).0.passed == []
    decreases now + 1 - m.cur, |m.left|
  {
    if m.left == [] {
      AdvanceKeepsInv(m);
      if m.cur + 1 <= now {
        PollEndsAtHead(Advance(m), now);
      }
    } else {
      LeftIsArmed(m);
      SkipKeepsInv(m);
      PollEndsAtHead(Skip(m), now);
    }
  }

  // Every run that leaves a wheel of n slots at tick cur, idle or not, drains in order.
  ghost predicate RunsInOrder(n: nat, cur: nat, idle: bool, now: nat) {
    forall tickMs: nat, ops: seq<Op>, r: Run | tickMs > 0 && Reaches(tickMs, n, ops, r) ::
      r.m.cur == cur && (r.m.left == [] <==> idle) ==>
        Inv(r.m) && Ordered(r.m, r.serial, Drain(r.m, now).1, cur, now)
  }

  // Token 0 comes first although token 1 is due before it.
  ghost predicate SkewedRun(r: Run, n: nat, start: nat, idle: bool)
    requires n > 0
  {
    && Good(r) && r.m.tickMs == 1 && |r.m.lists| == n
    && 0 in r.m.timers && 1 in r.m.timers
    && Tick(r.m, r.m.timers[0]) == start + n && Tick(r.m, r.m.timers[1]) == EarlierTick(n, start)
    && r.m.lists[start % n] != [] && r.m.lists[start % n][0] == 0
    && (idle ==> r.m.cur + 1 == start && r.m.left == [])
    && (!idle ==> r.m.cur == start && r.m.left == r.m.lists[start % n])
  }

  lemma SkewedRunFires(r: Run, n: nat, start: nat, idle: bool, now: nat)
    requires n > 0 && SkewedRun(r, n, start, idle) && start + n <= now
    ensures Inv(r.m) && !Ordered(r.m, r.serial, Drain(r.m, now).1, r.m.cur, now)
  {
    var m := r.m;
    if idle {
      HeadOfNextSlotFires(m, now);
    } else {
      FiresUnderCursor(m, now);
    }
    DrainUnfolds(m, now);
    DrainExact(m, now);
    assert 1 in Due(m, now);
    hide Inv, TimeInv, CoverInv, LatestFirst, FullyCovered, Poll, Drain, Tick, Ordered;
    FirstIsLater(m, r.serial, Drain(m, now).1, now);
  }

  // A run from an empty wheel that has not reached tick `start`, and then arms the two.
  lemma ArmBoth(n: nat, ops: seq<Op>, p: Run, start: nat) returns (more: seq<Op>, r: Run)
    requires n > 0 && Reaches(1, n, ops, p) && Good(p) && p.m.tickMs == 1 && |p.m.lists| == n
    requires p.m.left == [] && p.m.cur < start && start + n < TWO_32 && p.m.timers == map[] && p.m.reserved == {}
    ensures Reaches(1, n, more, r) && Good(r) && r.m.tickMs == 1 && |r.m.lists| == n
    ensures r.m.cur == p.m.cur && r.m.left == [] && r.last == p.last && r.m.timers.Keys == {0, 1}
    ensures Tick(r.m, r.m.timers[0]) == start + n && Tick(r.m, r.m.timers[1]) == EarlierTick(n, start)
    ensures r.m.lists[start % n] != [] && r.m.lists[start % n][0] == 0
  {
    hide Good, Reaches;
    var ops1, r1 := ArmOne(n, ops, p, 1, EarlierTick(n, start));
    more, r := ArmOne(n, ops1, r1, 0, start + n);
    TurnLater(start, n);
  }

  lemma ArmOne(n: nat, ops: seq<Op>, p: Run, tok: Token, tick: nat) returns (more: seq<Op>, r: Run)
    requires n > 0 && Reaches(1, n, ops, p) && Good(p) && p.m.tickMs == 1 && |p.m.lists| == n
    requires p.m.left == [] && p.m.cur < tick < TWO_32 && tok !in p.m.timers && p.m.reserved == {}
    ensures Reaches(1, n, more, r) && Good(r) && r.m.tickMs == 1 && |r.m.lists| == n
    ensures r.m.cur == p.m.cur && r.m.left == [] && r.last == p.last && r.drained == p.drained && r.m.reserved == {}
    ensures r.m.timers.Keys == p.m.timers.Keys + {tok} && Tick(r.m, r.m.timers[tok]) == tick
    ensures forall t :: t in p.m.timers ==> r.m.timers[t] == p.m.timers[t]
    ensures r.m.lists[tick % n] == [tok] + p.m.lists[tick % n]
  {
    hide Good, Reaches, Inv, Allowed, Step;
    var r1, arming, armed := ArmOneStep(p, tok, tick);
    r := armed;
    Extend(1, n, ops, p, ReserveOp(tok));
    Extend(1, n, ops + [ReserveOp(tok)], r1, arming);
    more := ops + [ReserveOp(tok)] + [arming];
  }

  lemma GoodIsSound(r: Run)
    requires Good(r)
    ensures Inv(r.m) && |r.m.lists| > 0 && r.m.tickMs > 0 && forall t :: t in r.m.timers ==> t in r.serial
  {
  }

  lemma ArmOneStep(p: Run, tok: Token, tick: nat) returns (r1: Run, arming: Op, r: Run)
    requires Good(p) && p.m.tickMs == 1 && p.m.left == [] && p.m.cur < tick < TWO_32 && tok !in p.m.timers && p.m.reserved == {}
    ensures Inv(p.m) && Allowed(p, ReserveOp(tok)) && r1 == Step(p, ReserveOp(tok))
    ensures Inv(r1.m) && Allowed(r1, arming) && r == Step(r1, arming) && Good(r)
    ensures r.m.tickMs == 1 && |r.m.lists| == |p.m.lists| > 0
    ensures r.m.cur == p.m.cur && r.m.left == [] && r.last == p.last && r.drained == p.drained && r.m.reserved == {}
    ensures r.m.timers.Keys == p.m.timers.Keys + {tok} && Tick(r.m, r.m.timers[tok]) == tick
    ensures forall t :: t in p.m.timers ==> r.m.timers[t] == p.m.timers[t]
    ensures r.m.lists[tick % |p.m.lists|] == [tok] + p.m.lists[tick % |p.m.lists|]
  {
    hide Good, TimeInv, CoverInv, FullyCovered, LatestFirst, TimeToTicks, Inv, Arm;
    TickOfMillis(tick);
    GoodIsSound(p);
    var at := tick * NANOS_PER_MILLI;
    arming := SetTimeoutOp(tok, at, 0);
    ReserveKeepsGood(p, tok);
    r1 := Step(p, ReserveOp(tok));
    GoodIsSound(r1);
    SetTimeoutKeepsGood(r1, tok, at, 0);
    r := Step(r1, arming);
    var m' := ArmOnIdleSlot(r1.m, tok, at, 0);
  }

  // Polling while nothing is due moves the cursor past the polled tick, to the head of its list.
  lemma PollAhead(n: nat, ops: seq<Op>, p: Run, now: nat) returns (r: Run)
    requires n > 0 && Reaches(1, n, ops, p) && Good(p) && p.m.tickMs == 1 && |p.m.lists| == n
    requires p.m.cur <= now && p.last <= now && forall t :: t in p.m.timers ==> Tick(p.m, p.m.timers[t]) > now
    ensures Reaches(1, n, ops + [PollOp(now * NANOS_PER_MILLI)], r) && Good(r) && r.m.tickMs == 1 && r.m.lists == p.m.lists
    ensures r.m.timers == p.m.timers && r.m.reserved == p.m.reserved && r.m.cur == now + 1 && r.last == now && r.drained
    ensures r.m.left == r.m.lists[(now + 1) % n]
  {
    TickOfMillis(now);
    var op := PollOp(now * NANOS_PER_MILLI);
    PollKeepsGood(p, now * NANOS_PER_MILLI);
    r := Step(p, op);
    PollAheadShape(p.m, now);
    assert Inv(p.m) && Allowed(p, op);
    hide Good, Reaches, Inv, Allowed, Poll, TimeToTicks;
    Extend(1, n, ops, p, op);
  }

  lemma PollAheadShape(m: Model, now: nat)
    requires Inv(m) && TimeInv(m) && m.cur <= now && forall t :: t in m.timers ==> Tick(m, m.timers[t]) > now
    ensures var m' := Poll(m, now).0;
            && m'.lists == m.lists && m'.timers == m.timers && m'.reserved == m.reserved && m'.tickMs == m.tickMs
            && m'.cur == now + 1 && Poll(m, now).1.None? && m'.left == m'.lists[(now + 1) % |m.lists|]
  {
    PollCorrect(m, now);
    PollTakesOnlyTheFired(m, now);
    PollKeepsTime(m, now);
    PollEndsAtHead(m, now);
    assert [] + Poll(m, now).0.left == Poll(m, now).0.left;
  }

  lemma StartIsGood(n: nat)
    requires n > 0
    ensures Reaches(1, n, [], Start(1, n)) && Good(Start(1, n))
    ensures Start(1, n).m.lists == Repeat([], n) && Start(1, n).m.timers == map[]
  {
    CreateKeepsInv(1, n);
    EveryRunIsGood(1, n, [], Start(1, n));
  }

  lemma SkewedIsReached(n: nat, start: nat, idle: bool) returns (ops: seq<Op>, r: Run)
    requires n > 0 && start > 0 && start + n < TWO_32
    ensures Reaches(1, n, ops, r) && SkewedRun(r, n, start, idle)
  {
    hide Reaches, Good, Inv, TimeToTicks;
    StartIsGood(n);
    var s := Start(1, n);
    if !idle {
      var ops1, r1 := ArmBoth(n, [], s, start);
      r := PollAhead(n, ops1, r1, start - 1);
      ops := ops1 + [PollOp((start - 1) * NANOS_PER_MILLI)];
    } else if start == 1 {
      ops, r := ArmBoth(n, [], s, start);
    } else {
      var r1 := PollAhead(n, [], s, start - 2);
      ops, r := ArmBoth(n, [] + [PollOp((start - 2) * NANOS_PER_MILLI)], r1, start);
    }
  }

  // Main result on order over runs: from an empty wheel, every run drains by tick, and within a tick the
  // last armed first, exactly when the clock is less than a turn ahead of the cursor, or a turn ahead of
  // an idle one, or the cursor has not moved, and then it is idle.
  lemma RunsInOrderIff(n: nat, cur: nat, idle: bool, now: nat)
    requires n > 0 && cur + 1 + n < TWO_32
    ensures RunsInOrder(n, cur, idle, now) <==> now < cur + n || (idle && now == cur + n) || (!idle && cur == 0)
  {
    if now < cur + n || (idle && now == cur + n) || (!idle && cur == 0) {
      forall tickMs: nat, ops: seq<Op>, r: Run | tickMs > 0 && Reaches(tickMs, n, ops, r)
        ensures r.m.cur == cur && (r.m.left == [] <==> idle) ==>
                  Inv(r.m) && Ordered(r.m, r.serial, Drain(r.m, now).1, cur, now)
      {
        if r.m.cur == cur && (r.m.left == [] <==> idle) {
          RunDrainsInOrder(tickMs, n, ops, r, idle, now);
        }
      }
    } else {
      var start := if idle then cur + 1 else cur;
      var ops, r := SkewedIsReached(n, start, idle);
      SkewedRunFires(r, n, start, idle, now);
    }
  }

  lemma RunDrainsInOrder(tickMs: nat, n: nat, ops: seq<Op>, r: Run, idle: bool, now: nat)
    requires tickMs > 0 && n > 0 && Reaches(tickMs, n, ops, r) && (r.m.left == [] <==> idle)
    requires now < r.m.cur + n || (idle && now == r.m.cur + n) || (!idle && r.m.cur == 0)
    ensures Inv(r.m) && Ordered(r.m, r.serial, Drain(r.m, now).1, r.m.cur, now)
  {
    EveryRunIsGood(tickMs, n, ops, r);
    RunShape(tickMs, n, ops, r);
    hide Reaches;
    if now < r.m.cur + n {
      FiringOrder(r.m, r.serial, now);
    } else {
      FiringOrderIdle(r.m, r.serial, now);
    }
  }
}
