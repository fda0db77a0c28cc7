// The runner as the program keeps it: a vector of fiber records, a free list and queues, updated in
// place. Every method is proved to do what the scheduling functions say.
module Runner {
  import opened Wrappers
  import opened Sequences
  import opened FiberTable
  import opened FiberState
  import opened FiberSpec
  import opened FiberSched
  import opened FiberFrames
  import R = FiberRuns

  // How starting a lookup ends: with a socket that is registered or needs not be, with one that cannot
  // be registered, or not at all.
  datatype Lookup = Started | Unregistered | Failed

  class RunnerInt {
    var fibers: seq<Fiber>
    var freeFibers: seq<nat>
    var toexec: seq<nat>
    var tomain: seq<nat>
    var results: seq<Resp>
    // The poller's pool of stacks; a stack is known by its number.
    var freeStacks: seq<nat>
    var stacksMade: nat
    var births: nat
    ghost var log: Log
    ghost var lost: set<nat>
    ghost var away: set<nat>

    ghost function Abs(): State
      reads this
    {
      State(Table(fibers, freeFibers, lost, births, freeStacks, stacksMade, away), toexec, tomain, results, log)
    }

    constructor ()
      ensures Abs() == Start()
    {
      fibers, freeFibers, toexec, tomain, results := [], [], [], [], [];
      freeStacks, stacksMade, births := [], 0, 0;
      log, lost, away := Log([], [], [], [], 0, false), {}, {};
    }

    // Registering a listener: the socket poll may refuse its socket, and then a free slot is lost.
    method RegisterListener(accepted: bool, func: bool, param: bool, parent: Option<nat>, schedule: bool) returns (pos: Option<nat>)
      requires Good(Abs()) && (parent.Some? ==> parent.value < |fibers| && parent.value != NextSlot(Abs().tab))
      modifies this
      ensures pos == if accepted then Some(NextSlot(old(Abs()).tab)) else None
      ensures !accepted ==> Abs() == old(Abs()).(tab := LoseSlot(old(Abs()).tab))
      ensures accepted ==>
        var s1 := Enroll(old(Abs()), func, param, parent);
        Abs() == if schedule then s1.(toexec := s1.toexec + [pos.value]) else s1
    {
      if !accepted {
        if freeFibers != [] {
          lost := lost + {freeFibers[0]};
          freeFibers := freeFibers[1..];
        }
        return None;
      }
      var slot := Register(func, param, parent, schedule);
      return Some(slot);
    }

    // Puts a fiber into a free slot, or a new one, and tells its parent.
    method Register(func: bool, param: bool, parent: Option<nat>, schedule: bool) returns (pos: nat)
      requires Good(Abs()) && (parent.Some? ==> parent.value < |fibers| && parent.value != NextSlot(Abs().tab))
      modifies this
      ensures pos == NextSlot(old(Abs()).tab) == if old(freeFibers) == [] then |old(fibers)| else old(freeFibers)[0]
      ensures var s1 := Enroll(old(Abs()), func, param, parent);
              Abs() == if schedule then s1.(toexec := s1.toexec + [pos]) else s1
    {
      pos := PlaceFiber(func, param, parent);
      hide Good;
      if parent.Some? {
        var p := fibers[parent.value];
        fibers := fibers[parent.value := p.(children := p.children + [pos])];
      }
      if schedule {
        toexec := toexec + [pos];
      }
    }

    // Writes the record of a new fiber into a free slot, or a new one.
    method PlaceFiber(func: bool, param: bool, parent: Option<nat>) returns (pos: nat)
      requires Inv(Abs().tab)
      modifies this
      ensures var t, l := old(Abs()).tab, old(Abs()).log;
              && pos == NextSlot(t)
              && Abs() == old(Abs()).(
                   tab := Place(t, NewFiber(func, param, parent, t.births)),
                   log := l.(sent := l.sent + [[]], got := l.got + [[]], dropped := l.dropped + [0]))
    {
      NextSlotIsFree(Abs().tab);
      hide Inv;
      var fiber := NewFiber(func, param, parent, births);
      if freeFibers != [] {
        pos := freeFibers[0];
        freeFibers := freeFibers[1..];
        fibers := fibers[pos := fiber];
      } else {
        pos := |fibers|;
        fibers := fibers + [fiber];
      }
      births := births + 1;
      log := log.(sent := log.sent + [[]], got := log.got + [[]], dropped := log.dropped + [0]);
    }

    // Takes the response of the first child that is closed or has one, reaping closed children, until
    // there is a response, no child is left, or all children have to be waited for.
    method ChildIter(parent: nat) returns (r: Iter)
      requires Scene(Abs(), parent)
      modifies this
      ensures (Abs(), r) == FiberSpec.ChildIter(old(Abs()), parent)
    {
      while true
        invariant Scene(Abs(), parent)
        invariant FiberSpec.ChildIter(Abs(), parent) == FiberSpec.ChildIter(old(Abs()), parent)
        decreases |fibers[parent].children|
      {
        SceneFacts(Abs(), parent);
        hide Scene;
        var children := fibers[parent].children;
        if |children| == 0 {
          return Empty;
        }
        var index := ReadyIndex(children);
        if index == |children| {
          return Block;
        }
        TakeChildScene(Abs(), parent, index);
        var out := TakeFrom(parent, index);
        if out.Some? {
          return Got(out.value);
        }
      }
    }

    // The first child that is closed or has a response.
    method ReadyIndex(children: seq<nat>) returns (index: nat)
      requires forall j :: 0 <= j < |children| ==> children[j] < |fibers|
      ensures index == FirstReady(Abs().tab, children, 0)
    {
      index := 0;
      while index < |children|
        invariant index <= |children|
        invariant FirstReady(Abs().tab, children, 0) == FirstReady(Abs().tab, children, index)
      {
        if fibers[children[index]].state.Closed? || fibers[children[index]].result.Some? {
          return;
        }
        index := index + 1;
      }
    }

    method TakeFrom(parent: nat, index: nat) returns (out: Option<Resp>)
      requires Scene(Abs(), parent) && index < |fibers[parent].children|
      requires ChildOk(Abs().tab, parent, fibers[parent].children[index]) && SlotOk(Abs().tab, fibers[parent].children[index])
      requires fibers[parent].children[index] != parent
      modifies this
      ensures Abs() == TakeChild(old(Abs()), parent, index)
      ensures out == old(fibers[fibers[parent].children[index]].result)
    {
      var child := fibers[parent].children[index];
      out := fibers[child].result;
      ghost var b := fibers[child].birth;
      var table := fibers[child := fibers[child].(result := None)];
      log := log.(got := log.got[b := log.got[b] + Pending(out)]);
      if table[child].state.Closed? {
        var p := table[parent];
        fibers := table[parent := p.(children := SwapRemoveFront(p.children, index))];
        freeFibers, lost := freeFibers + [child], lost - {child};
      } else {
        // Now that its response is taken, schedule it again.
        fibers := table;
        toexec := toexec + [child];
      }
    }

    // Moves a response to the queue of the main stack.
    method TakeResult(pos: nat)
      requires Good(Abs()) && pos < |fibers| && fibers[pos].birth < births
      modifies this
      ensures Abs() == Publish(old(Abs()), pos)
    {
      var rs := fibers[pos].result;
      ghost var b := fibers[pos].birth;
      fibers := fibers[pos := fibers[pos].(result := None)];
      log := log.(got := log.got[b := log.got[b] + Pending(rs)]);
      if rs.Some? {
        results := results + [rs.value];
        log := log.(main := log.main + [Sent(b, rs.value)]);
      }
    }

    // A stack from the pool, or a new one; in a sound table no fiber holds it.
    method StackPop() returns (stack: nat)
      modifies this`freeStacks, this`stacksMade
      ensures Inv(old(Abs()).tab) ==>
        && (forall i :: !Holds(old(Abs()).tab, i, stack)) && stack !in freeStacks && stack < stacksMade
        && multiset(freeStacks) == multiset(old(freeStacks)) - multiset{stack}
      ensures stack == if old(freeStacks) == [] then old(stacksMade) else old(freeStacks)[0]
      ensures freeStacks == if old(freeStacks) == [] then [] else old(freeStacks)[1..]
      ensures stacksMade == if old(freeStacks) == [] then old(stacksMade) + 1 else old(stacksMade)
    {
      if Inv(Abs().tab) {
        PoppedStackIsUnheld(Abs().tab);
      }
      hide Inv, Holds;
      if freeStacks == [] {
        stack := stacksMade;
        stacksMade := stacksMade + 1;
      } else {
        stack := freeStacks[0];
        freeStacks := freeStacks[1..];
      }
    }

    method Unstack(pos: nat)
      requires pos < |fibers| && fibers[pos].stack.Some?
      modifies this
      ensures Abs() == old(Abs()).(tab := FiberTable.Unstack(old(Abs()).tab, pos))
      ensures freeStacks == [old(fibers[pos].stack.value)] + old(freeStacks) && fibers[pos].stack.None? && !fibers[pos].t
    {
      var stack := fibers[pos].stack.value;
      fibers := fibers[pos := fibers[pos].(stack := None, t := false)];
      freeStacks := [stack] + freeStacks;
    }

    // Resolving a domain for a new fiber, with a timeout in nanoseconds that counts in ticks of 250 ms. An
    // empty domain is refused at once; if the lookup cannot start, the registration is undone; if its socket
    // cannot be registered, an error is returned although the fiber stays and waits.
    method NewResolve(emptyDomain: bool, parent: Option<nat>, armed: bool, timeout: nat, lookup: Lookup) returns (pos: Option<nat>)
      requires Good(Abs()) && (parent.Some? ==> parent.value < |fibers| && parent.value != NextSlot(Abs().tab))
      modifies this
      ensures Abs() == if emptyDomain then old(Abs()) else ResolveFiber(old(Abs()), parent, armed, timeout, lookup != Failed)
      ensures pos == if !emptyDomain && lookup == Started then Some(NextSlot(old(Abs()).tab)) else None
      ensures !emptyDomain && lookup != Failed ==>
        var slot, n := NextSlot(old(Abs()).tab), timeout / 1_000_000 / 250;
        && slot < |fibers| && fibers[slot].connecting && fibers[slot].wtoken == armed && fibers[slot].wait.NotStarted?
        && fibers[slot].timedOut == if n == 0 then 1 else if n <= 255 then n else 255
    {
      if emptyDomain {
        return None;
      }
      hide Conserved, SlotOk, StackOk;
      var slot := Register(true, true, parent, false);
      var timeoutTicks := (timeout / 1_000_000_000 * 1000 + timeout % 1_000_000_000 / 1_000_000) / 250;
      assert timeoutTicks == timeout / 1_000_000 / 250;
      if timeoutTicks == 0 {
        timeoutTicks := 1;
      } else if timeoutTicks > 255 {
        timeoutTicks := 255;
      }
      fibers := fibers[slot := fibers[slot].(wtoken := armed, timedOut := timeoutTicks)];
      if lookup != Failed {
        fibers := fibers[slot := fibers[slot].(connecting := true)];
        return if lookup == Started then Some(slot) else None;
      }
      Undo(slot);
      return None;
    }

    // Undoes the registration of a fiber that is the newest child of its parent, if it has one.
    method Undo(slot: nat)
      requires slot < |fibers|
      requires fibers[slot].parent.Some? ==> fibers[slot].parent.value < |fibers| && fibers[fibers[slot].parent.value].children != []
      modifies this
      ensures var s2 := old(Abs());
              var s3 := s2.(tab := Disown(s2.tab, slot));
              var s4 := Put(s3, slot, s3.tab.fibers[slot].(wtoken := false));
              Abs() == if s2.tab.fibers[slot].wtoken then s4.(tab := Release(s4.tab, slot)) else s3
    {
      if fibers[slot].parent.Some? {
        var p := fibers[fibers[slot].parent.value];
        fibers := fibers[fibers[slot].parent.value := p.(children := p.children[..|p.children| - 1])];
      }
      fibers := fibers[slot := fibers[slot].(param := false, parent := None, wait := Dead)];
      if fibers[slot].wtoken {
        fibers := fibers[slot := fibers[slot].(wtoken := false)];
        freeFibers, lost := freeFibers + [slot], lost - {slot};
      }
    }

    // ---------- switching ----------

    // The calls a fiber makes before it gives up control.
    method RunOps(pos: nat, ops: seq<Op>) returns (waits: bool)
      requires Scene(Abs(), pos)
      modifies this
      ensures (Abs(), waits) == FiberSched.RunOps(old(Abs()), pos, ops)
    {
      ghost var whole := FiberSched.RunOps(Abs(), pos, ops);
      assert ops[0..] == ops;
      for i := 0 to |ops|
        invariant Scene(Abs(), pos) && FiberSched.RunOps(Abs(), pos, ops[i..]) == whole
      {
        RunOpsUnfolds(Abs(), pos, ops[i..]);
        assert ops[i..][1..] == ops[i + 1..] && ops[i..][0] == ops[i];
        hide Scene, OpState, WaitsAtOp, FiberSched.RunOps;
        waits := RunOp(pos, ops[i]);
        if waits {
          return true;
        }
      }
      assert ops[|ops|..] == [];
      return false;
    }

    method RunOp(pos: nat, op: Op) returns (waits: bool)
      requires Scene(Abs(), pos)
      modifies this
      ensures Abs() == OpState(old(Abs()), pos, op) && waits == WaitsAtOp(old(Abs()), pos, op)
    {
      waits := false;
      SpawnReady(Abs(), pos);
      hide Scene;
      match op {
        case Spawn(child, schedule) =>
          var _ := Register(true, true, ParentFor(child, pos), schedule);
        case Resolve(child, armed, timeout, ok) =>
          var _ := NewResolve(false, ParentFor(child, pos), armed, timeout, if ok then Started else Failed);
        case GetChild =>
          var r := ChildIter(pos);
          waits := r.Block?;
        case RefusedListener =>
          var _ := RegisterListener(false, true, true, None, true);
      }
    }

    // How a fiber gives up control: with a response, to wait for its socket or for the main stack, or
    // by returning. The result is false if the discipline forbids it.
    method EndBurst(pos: nat, end: Yield) returns (ok: bool)
      requires Scene(Abs(), pos)
      modifies this
      ensures var r := FiberSched.EndBurst(old(Abs()), pos, end); ok == r.Some? && (ok ==> Abs() == r.value)
    {
      SceneFacts(Abs(), pos);
      var f := fibers[pos];
      match end {
        case Chunk(v) =>
          SetResult(pos, Some(v));
          fibers := fibers[pos := fibers[pos].(wait := AtChunk)];
        case Io(armed) =>
          if f.connecting {
            return false;
          }
          fibers := fibers[pos := f.(wait := AtIo, wtoken := f.wtoken || armed, timedOut := if armed then 0 else f.timedOut)];
        case Join =>
          tomain := tomain + [pos];
          fibers := fibers[pos := f.(wait := AtJoin)];
          log := log.(joined := true);
        case Return(v) =>
          if f.children != [] {
            return false;
          }
          SetResult(pos, v);
          fibers := fibers[pos := fibers[pos].(state := Closed, wait := Dead)];
      }
      return true;
    }

    method SetResult(pos: nat, r: Option<Resp>)
      requires Good(Abs()) && pos < |fibers| && fibers[pos].birth < births
      modifies this
      ensures Abs() == Send(old(Abs()), pos, r)
    {
      var f := fibers[pos];
      fibers := fibers[pos := f.(result := r)];
      log := log.(sent := log.sent[f.birth := log.sent[f.birth] + Pending(r)],
                  dropped := log.dropped[f.birth := log.dropped[f.birth] + |Pending(f.result)|]);
    }

    // Resumes a fiber where it left off, or starts it on a stack of its own.
    method WakeUp(pos: nat)
      requires pos < |fibers|
      modifies this
      ensures Abs() == FiberSched.WakeUp(old(Abs()), pos)
    {
      var f := fibers[pos];
      match f.wait {
        case NotStarted =>
          var stack := StackPop();
          fibers := fibers[pos := f.(state := Stacked, param := false, t := true, stack := Some(stack), wait := Running)];
        case AtIo =>
          fibers := fibers[pos := f.(wait := Running, wtoken := false, timedOut := 0)];
        case AtJoin =>
          fibers := fibers[pos := f.(wait := Running, result := None)];
          log := log.(joined := true);
        case _ =>
          fibers := fibers[pos := f.(wait := Running)];
      }
    }

    method Body(pos: nat, burst: Burst) returns (ok: bool)
      requires CanStep(Abs(), pos) && fibers[pos].func
      modifies this
      ensures var r := FiberSched.Body(old(Abs()), pos, burst); ok == r.Some? && (ok ==> Abs() == r.value)
    {
      WakeUpScene(Abs(), pos);
      hide CanStep, Scene;
      var inChildIter := fibers[pos].wait.AtChildIter?;
      WakeUp(pos);
      var waits := false;
      if inChildIter {
        var r := ChildIter(pos);
        waits := r.Block?;
      }
      if !waits {
        waits := RunOps(pos, burst.ops);
      }
      if waits {
        WaitForChild(pos);
        ok := true;
      } else {
        ok := EndBurst(pos, burst.end);
      }
    }

    method WaitForChild(pos: nat)
      requires Scene(Abs(), pos)
      modifies this
      ensures Abs() == Mark(old(Abs()), pos, AtChildIter)
    {
      fibers := fibers[pos := fibers[pos].(wait := AtChildIter)];
    }

    // Main stack to fiber, and back. The result is None if the fiber broke the discipline.
    method StepInto(pos: nat, oracle: nat -> Burst, k: nat) returns (next: Option<nat>)
      requires CanStep(Abs(), pos)
      modifies this
      ensures var r := FiberSched.StepInto(old(Abs()), pos, oracle, k);
              next.Some? == r.Done? && (r.Done? ==> r == Done(Abs(), next.value))
      decreases fibers[pos].birth, 1
    {
      var func := fibers[pos].func;
      assert pos < |fibers|;
      hide CanStep, Back, Good;
      if func {
        var ok := Body(pos, oracle(k));
        if !ok {
          return None;
        }
      } else {
        FunclessBack(Abs(), pos);
        fibers := fibers[pos := fibers[pos].(state := Closed, wait := Dead)];
      }
      next := SteppedOut(pos, oracle, k + 1);
    }

    // Back on the main stack: give up the stack of a fiber that is not on it any more, and hand a
    // response or the end of the fiber to its parent or to the main stack.
    method SteppedOut(pos: nat, oracle: nat -> Burst, k: nat) returns (next: Option<nat>)
      requires Back(Abs(), pos)
      modifies this
      ensures var r := FiberSched.SteppedOut(old(Abs()), pos, oracle, k);
              next.Some? == r.Done? && (r.Done? ==> r == Done(Abs(), next.value))
      decreases fibers[pos].birth, 0
    {
      CleanStackBack(Abs(), pos);
      ghost var s1 := CleanStack(Abs(), pos);
      assert SlotOk(Abs().tab, pos);
      hide Back, Good, Quiet0;
      if !fibers[pos].state.Stacked? && fibers[pos].t {
        Unstack(pos);
      }
      assert Abs() == s1;
      var f := fibers[pos];
      if f.parent.Some? {
        ParentCanStep(s1, pos);
        if f.state.Closed? || f.result.Some? {
          next := StepInto(f.parent.value, oracle, k);
        } else {
          next := Some(k);
        }
      } else if f.state.Closed? {
        RetireQuiet(s1, pos);
        GoodBack(s1, pos);
        TakeResult(pos);
        freeFibers, lost := freeFibers + [pos], lost - {pos};
        next := Some(k);
      } else {
        RepublishQuiet(s1, pos);
        GoodBack(s1, pos);
        if f.result.Some? {
          TakeResult(pos);
          toexec := toexec + [pos];
        }
        next := Some(k);
      }
    }

    // ---------- the main stack ----------

    // A timer that answers with a response by itself, or runs a function. The result says whether it could
    // be set; if not, the fiber stays.
    method NewTimer(func: bool, resp: Resp, armed: bool) returns (ok: bool)
      requires Good(Abs())
      modifies this
      ensures ok == armed
      ensures Abs() == if func then R.FiberTimer(old(Abs()), armed) else R.ResponseTimer(old(Abs()), resp, armed)
    {
      EnrollKeepsGood(Abs(), func, func, None);
      NextSlotIsFree(Abs().tab);
      var pos := Register(func, func, None, false);
      hide Good, Enroll;
      if !func {
        SetResult(pos, Some(resp));
      }
      fibers := fibers[pos := fibers[pos].(wtoken := armed)];
      return armed;
    }

    // The main stack's answer to a fiber in join_main.
    method ResumeFiber(pos: nat, resp: Option<Resp>)
      requires pos < |fibers|
      modifies this
      ensures Abs() == R.Answer(old(Abs()), pos, resp)
    {
      fibers := fibers[pos := fibers[pos].(result := resp)];
      toexec := toexec + [pos];
      log := log.(joined := true);
    }

    // The next response for the main stack, if any.
    method GetResponse() returns (r: Option<Resp>)
      modifies this
      ensures r == if old(results) == [] then None else Some(old(results)[0])
      ensures Abs() == R.Fetch(old(Abs()))
    {
      if results == [] {
        return None;
      }
      r := Some(results[0]);
      results := results[1..];
      log := log.(popped := log.popped + 1);
    }

    // The next fiber that waits in join_main, if any.
    method GetFiber() returns (r: Option<nat>)
      modifies this
      ensures r == if old(tomain) == [] then None else Some(old(tomain)[0])
      ensures Abs() == old(Abs()).(tomain := if old(tomain) == [] then [] else old(tomain)[1..])
    {
      if tomain == [] {
        return None;
      }
      r := Some(tomain[0]);
      tomain := tomain[1..];
    }

    // ---------- the loops of run, one turn each ----------

    // The next fiber to run. One that waits for a lookup connects if its socket delivers an address, and
    // runs at once if that fails.
    method RunNext(reply: R.Reply, oracle: nat -> Burst) returns (next: Option<nat>)
      requires R.Settled(Abs()) && R.Allowed(Abs(), R.Exec(reply))
      modifies this
      ensures var r := R.ExecNext(old(Abs()), reply, oracle);
              next.Some? == r.Done? && (r.Done? ==> r == Done(Abs(), next.value))
    {
      var pos := toexec[0];
      ghost var s := Abs();
      QueuesDoNotMatter(s, R.Pop(s));
      assert SlotOk(s.tab, pos);
      if fibers[pos].connecting && reply.Address? {
        R.AddressCanStep(s, reply);
      }
      hide R.Settled, CanStep, FiberSched.StepInto;
      toexec := toexec[1..];
      if !fibers[pos].connecting {
        next := StepInto(pos, oracle, 0);
      } else if reply.NoAddress? {
        next := Some(0);
      } else {
        HaveAddress(pos);
        if reply.registered {
          next := Some(0);
        } else {
          next := StepInto(pos, oracle, 0);
        }
      }
    }

    method HaveAddress(pos: nat)
      requires pos < |fibers|
      modifies this
      ensures Abs() == R.HaveAddress(old(Abs()), pos)
    {
      fibers := fibers[pos := fibers[pos].(wtoken := false, connecting := false, timedOut := 0)];
    }

    // A timer that went off: a lookup counts down, and is given up at the end; any other fiber is run.
    method TimedOut(pos: nat, rearmed: bool, oracle: nat -> Burst) returns (next: Option<nat>)
      requires R.Settled(Abs()) && R.Allowed(Abs(), R.TimedOut(pos, rearmed))
      modifies this
      ensures var r := R.TimeoutStep(old(Abs()), pos, rearmed, oracle);
              next.Some? == r.Done? && (r.Done? ==> r == Done(Abs(), next.value))
    {
      if !fibers[pos].wtoken {
        return Some(0);
      }
      R.TimeoutSettled(Abs(), pos, rearmed);
      ghost var s1 := Put(Abs(), pos, R.AfterTimeout(fibers[pos], rearmed));
      assert !(fibers[pos].connecting && fibers[pos].timedOut > 1) ==> CanStep(s1, pos);
      hide R.Settled, CanStep, FiberSched.StepInto;
      if fibers[pos].connecting {
        var timedOut := fibers[pos].timedOut - 1;
        if timedOut > 0 {
          fibers := fibers[pos := fibers[pos].(wtoken := rearmed, timedOut := timedOut)];
          return Some(0);
        }
        fibers := fibers[pos := fibers[pos].(wtoken := false, timedOut := 0)];
      } else {
        fibers := fibers[pos := fibers[pos].(wtoken := false, timedOut := 1)];
      }
      assert Abs() == s1;
      next := StepInto(pos, oracle, 0);
    }

    // Gives up a timer before it has gone off, and its slot with it.
    method CancelTimer(pos: nat)
      requires Good(Abs()) && pos < |fibers|
      modifies this
      ensures Abs() == R.CancelTimer(old(Abs()), pos)
    {
      if fibers[pos].wtoken {
        assert SlotOk(Abs().tab, pos);
        SetResult(pos, None);
        fibers := fibers[pos := R.Cancelled(fibers[pos])];
        freeFibers, lost := freeFibers + [pos], lost - {pos};
      }
    }
  }

  lemma SpawnReady(s: State, pos: nat)
    requires Scene(s, pos)
    ensures Good(s) && pos < |s.tab.fibers| && pos != NextSlot(s.tab)
  {
    AliveIsNotNext(s.tab, pos);
  }

  lemma GoodBack(s: State, pos: nat)
    requires Back(s, pos)
    ensures Good(s) && pos < |s.tab.fibers|
  {
  }
}
