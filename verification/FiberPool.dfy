// Several runners that share the poller's pool of stacks, and take turns in any order.
module FiberPool {
  import opened Wrappers
  import opened Sequences
  import opened FiberTable
  import opened FiberState
  import opened FiberSpec
  import opened FiberSched
  import opened FiberRuns
  import P = Poller

  datatype System = System(runners: seq<State>, pool: seq<nat>, made: nat)

  // ---------- one runner's view ----------

  function HeldElsewhere(sys: System, r: nat): set<nat> {
    set q: nat, i: nat | q < |sys.runners| && q != r && i < |sys.runners[q].tab.fibers| && sys.runners[q].tab.fibers[i].stack.Some?
      :: sys.runners[q].tab.fibers[i].stack.value
  }

  // A runner sees the shared pool, and the stacks of the others as away.
  function View(sys: System, r: nat): State
    requires r < |sys.runners|
  {
    Repooled(sys.runners[r], sys.pool, sys.made, HeldElsewhere(sys, r))
  }

  function Repooled(s: State, stacks: seq<nat>, made: nat, away: set<nat>): State {
    s.(tab := s.tab.(stacks := stacks, made := made, away := away))
  }

  ghost predicate HoldsAt(sys: System, r: nat, i: nat, k: nat) {
    r < |sys.runners| && Holds(sys.runners[r].tab, i, k)
  }

  // Every stack ever made is in the pool, or held by exactly one fiber of exactly one runner.
  ghost predicate StackShared(sys: System, k: nat) {
    && (k < sys.made <==> k in sys.pool || exists r: nat, i: nat :: HoldsAt(sys, r, i, k))
    && (k in sys.pool ==> forall r: nat, i: nat :: !HoldsAt(sys, r, i, k))
    && (forall r: nat, i: nat, q: nat, j: nat :: HoldsAt(sys, r, i, k) && HoldsAt(sys, q, j, k) ==> r == q && i == j)
  }

  ghost predicate Sound(sys: System) {
    && NoDup(sys.pool) && (forall k: nat :: StackShared(sys, k))
    && (forall r: nat :: r < |sys.runners| ==> Settled(View(sys, r)))
  }

  lemma HeldElsewhereMeans(sys: System, r: nat, k: nat)
    ensures k in HeldElsewhere(sys, r) <==> exists q: nat, i: nat :: q != r && HoldsAt(sys, q, i, k)
  {
    if k in HeldElsewhere(sys, r) {
      var q: nat, i: nat :| q < |sys.runners| && q != r && i < |sys.runners[q].tab.fibers|
                            && sys.runners[q].tab.fibers[i].stack.Some? && sys.runners[q].tab.fibers[i].stack.value == k;
      assert HoldsAt(sys, q, i, k);
    }
  }

  // ---------- steps ----------

  datatype SystemEvent = NewRunner | Turn(runner: nat, event: Event)

  function AfterTurn(sys: System, r: nat, s: State): System
    requires r < |sys.runners|
  {
    System(sys.runners[r := s], s.tab.stacks, s.tab.made)
  }

  ghost predicate Turns(sys: System, e: SystemEvent, oracle: nat -> Burst, sys': System) {
    match e
    case NewRunner => |sys.runners| < P.MAX_RUNNERS && sys' == sys.(runners := sys.runners + [Start()])
    case Turn(r, event) =>
      && r < |sys.runners| && Settled(View(sys, r)) && Allowed(View(sys, r), event)
      && Step(View(sys, r), event, oracle).Done? && sys' == AfterTurn(sys, r, Step(View(sys, r), event, oracle).s)
  }

  // Changing the pool and what is away, so that the stacks still add up, leaves a runner sound.
  lemma RepooledSettled(s: State, stacks: seq<nat>, made: nat, away: set<nat>)
    requires Settled(s) && NoDup(stacks) && forall k: nat :: StackOk(Repooled(s, stacks, made, away).tab, k)
    ensures Settled(Repooled(s, stacks, made, away))
  {
    var s' := Repooled(s, stacks, made, away);
    forall i: nat | i < |s'.tab.fibers| ensures SlotOk(s'.tab, i) {
      assert SlotOk(s.tab, i);
      forall c | c in s.tab.fibers[i].children ensures ChildOk(s'.tab, i, c) {
        assert ChildOk(s.tab, i, c);
      }
      if s.tab.fibers[i].parent.Some? && !Vacant(s.tab, i) {
        assert ParentOk(s.tab, i, s.tab.fibers[i].parent.value);
      }
    }
    forall i: nat, j: nat | i < j < |s'.tab.fibers| ensures !SameBirth(s'.tab, i, j) {
      assert !SameBirth(s.tab, i, j);
    }
    BirthsKnown(s.tab);
    SameRecordsConserved(s, s'.tab);
    forall i: nat | i < |s'.tab.fibers| && i != -1 ensures SlotQuiet(s'.tab, i) {
      assert SlotQuiet(s.tab, i);
    }
  }

  // What every runner sees of a stack follows from how it is shared.
  lemma SharedIsOk(sys: System, r: nat, k: nat)
    requires r < |sys.runners| && StackShared(sys, k)
    ensures StackOk(View(sys, r).tab, k)
  {
    var t := View(sys, r).tab;
    HeldElsewhereMeans(sys, r, k);
    hide HeldElsewhere;
    assert forall i :: Holds(t, i, k) ==> HoldsAt(sys, r, i, k);
    assert forall i: nat :: HoldsAt(sys, r, i, k) ==> Holds(t, i, k);
  }

  lemma OthersElsewhere(sys: System, r: nat, s: State)
    requires r < |sys.runners|
    ensures HeldElsewhere(AfterTurn(sys, r, s), r) == HeldElsewhere(sys, r)
  {
    var sys' := AfterTurn(sys, r, s);
    forall k: nat ensures k in HeldElsewhere(sys', r) <==> k in HeldElsewhere(sys, r) {
      HeldElsewhereMeans(sys, r, k);
      HeldElsewhereMeans(sys', r, k);
      assert forall q: nat, i: nat :: q != r ==> (HoldsAt(sys', q, i, k) <==> HoldsAt(sys, q, i, k));
    }
  }

  // After a turn the stacks are still shared out once each.
  lemma TurnShares(sys: System, r: nat, s: State, k: nat)
    requires r < |sys.runners| && StackShared(sys, k) && StackOk(s.tab, k) && s.tab.away == HeldElsewhere(sys, r)
    ensures StackShared(AfterTurn(sys, r, s), k)
  {
    var sys' := AfterTurn(sys, r, s);
    HeldElsewhereMeans(sys, r, k);
    hide HeldElsewhere;
    assert forall i: nat :: HoldsAt(sys', r, i, k) <==> Holds(s.tab, i, k);
    assert forall q: nat, i: nat :: q != r ==> (HoldsAt(sys', q, i, k) <==> HoldsAt(sys, q, i, k));
    if k < sys'.made && k !in sys'.pool {
      if k in s.tab.away {
        var q: nat, i: nat :| q != r && HoldsAt(sys, q, i, k);
        assert HoldsAt(sys', q, i, k);
      } else {
        var i :| Holds(s.tab, i, k);
        assert HoldsAt(sys', r, i, k);
      }
    }
  }

  lemma TurnKeepsSound(sys: System, r: nat, s: State)
    requires Sound(sys) && r < |sys.runners| && Settled(s) && s.tab.away == View(sys, r).tab.away
    ensures Sound(AfterTurn(sys, r, s))
  {
    var sys' := AfterTurn(sys, r, s);
    forall k: nat ensures StackShared(sys', k) {
      TurnShares(sys, r, s, k);
    }
    OthersElsewhere(sys, r, s);
    forall q: nat | q < |sys'.runners| ensures Settled(View(sys', q)) {
      if q == r {
        assert View(sys', r) == s;
      } else {
        OtherRunner(sys, sys', q);
      }
    }
  }

  // A runner that did not move sees the new pool.
  lemma OtherRunner(sys: System, sys': System, q: nat)
    requires q < |sys.runners| && q < |sys'.runners| && sys'.runners[q] == sys.runners[q]
    requires Settled(View(sys, q)) && NoDup(sys'.pool) && forall k: nat :: StackShared(sys', k)
    ensures Settled(View(sys', q))
  {
    forall k: nat ensures StackOk(View(sys', q).tab, k) {
      SharedIsOk(sys', q, k);
    }
    hide Settled, HeldElsewhere, StackOk;
    assert View(sys', q) == Repooled(View(sys, q), sys'.pool, sys'.made, HeldElsewhere(sys', q));
    RepooledSettled(View(sys, q), sys'.pool, sys'.made, HeldElsewhere(sys', q));
  }

  lemma NewRunnerKeepsSound(sys: System)
    requires Sound(sys)
    ensures Sound(sys.(runners := sys.runners + [Start()]))
  {
    var sys' := sys.(runners := sys.runners + [Start()]);
    var last := |sys.runners|;
    forall k: nat ensures StackShared(sys', k) {
      assert forall q: nat, i: nat :: HoldsAt(sys', q, i, k) <==> HoldsAt(sys, q, i, k);
      assert StackShared(sys, k);
    }
    forall q: nat | q < |sys'.runners| ensures Settled(View(sys', q)) {
      if q < last {
        OtherRunner(sys, sys', q);
      } else {
        forall k: nat ensures StackOk(View(sys', q).tab, k) {
          SharedIsOk(sys', q, k);
        }
        StartSettled();
        assert View(sys', q) == Repooled(Start(), sys'.pool, sys'.made, HeldElsewhere(sys', q));
        hide Settled, HeldElsewhere, StackOk;
        RepooledSettled(Start(), sys'.pool, sys'.made, HeldElsewhere(sys', q));
      }
    }
  }

  lemma TurnsKeepSound(sys: System, e: SystemEvent, oracle: nat -> Burst, sys': System)
    requires Sound(sys) && Turns(sys, e, oracle, sys')
    ensures Sound(sys')
  {
    match e
    case NewRunner => NewRunnerKeepsSound(sys);
    case Turn(r, event) => TurnKeepsSound(sys, r, Step(View(sys, r), event, oracle).s);
  }

  // ---------- runs ----------

  ghost predicate SystemReaches(events: seq<SystemEvent>, sys: System)
    decreases |events|
  {
    if events == [] then sys == System([], [], 0)
    else
      var last := |events| - 1;
      exists p: System, oracle: nat -> Burst ::
        SystemReaches(events[..last], p) && Turns(p, events[last], oracle, sys)
  }

  // In every run of several runners each of them stays sound, so that what holds of a sound table holds
  // of each runner's.
  lemma {:induction false} EverySystemIsSound(events: seq<SystemEvent>, sys: System)
    requires SystemReaches(events, sys)
    ensures Sound(sys)
    decreases |events|
  {
    if events != [] {
      var last := |events| - 1;
      var p: System, oracle: nat -> Burst :|
        SystemReaches(events[..last], p) && Turns(p, events[last], oracle, sys);
      EverySystemIsSound(events[..last], p);
      hide Sound, Turns;
      TurnsKeepSound(p, events[last], oracle, sys);
    }
  }

  // Main result on the shared pool: in every run each stack ever made is in the pool once, or held by
  // exactly one fiber of exactly one runner, and no other stack is held or in the pool.
  lemma PoolConserved(events: seq<SystemEvent>, sys: System, k: nat)
    requires SystemReaches(events, sys)
    ensures multiset(sys.pool)[k] + (if exists r: nat, i: nat :: HoldsAt(sys, r, i, k) then 1 else 0) == if k < sys.made then 1 else 0
    ensures forall r: nat, i: nat, q: nat, j: nat :: HoldsAt(sys, r, i, k) && HoldsAt(sys, q, j, k) ==> r == q && i == j
  {
    EverySystemIsSound(events, sys);
    NoDupCounts(sys.pool, k);
    assert StackShared(sys, k);
  }
}
