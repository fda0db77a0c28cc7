// The timer wheel as a value: one sequence of tokens for each slot, and a cursor that splits the
// current slot's sequence into the part it has passed and the part still to be visited. Class Wheel
// refines this machine with linked lists threaded through a slab.
module WheelSpec {
  import opened Wrappers
  import opened Bits
  import opened Sequences

  type Token = nat

  const NANOS_PER_SEC: nat := 1_000_000_000
  const NANOS_PER_MILLI: nat := 1_000_000

  // An armed timeout. `when` is in nanoseconds since the wheel was created.
  datatype Timer = Timer(task: nat, when: nat, slot: nat)

  datatype Model = Model(
    tickMs: nat,
    lists: seq<seq<Token>>,
    nexts: seq<Option<nat>>,
    timers: map<Token, Timer>,
    reserved: set<Token>,
    cur: nat,
    passed: seq<Token>,
    left: seq<Token>)

  // ---------- time ----------

  function TimeToTicks(tickMs: nat, time: nat): nat
    requires tickMs > 0
  {
    var secs, subsecNanos := time / NANOS_PER_SEC, time % NANOS_PER_SEC;
    (secs * 1000 + subsecNanos / NANOS_PER_MILLI) / tickMs
  }

  // The instant at which a tick starts. The source narrows the tick to 32 bits first.
  function TickStart(tickMs: nat, tick: nat): nat {
    tickMs * (tick % TWO_32) * NANOS_PER_MILLI
  }

  lemma TicksOfNanos(tickMs: nat, time: nat)
    requires tickMs > 0
    ensures TimeToTicks(tickMs, time) == (time / NANOS_PER_MILLI) / tickMs
  {
  }

  // The start of a tick is its first instant: below 2^32, a time has come to the tick exactly when it
  // has come to its start.
  lemma TickStartIsFirst(tickMs: nat, tick: nat, time: nat)
    requires tickMs > 0 && tick < 0x1_0000_0000
    ensures TimeToTicks(tickMs, time) >= tick <==> time >= TickStart(tickMs, tick)
    ensures TimeToTicks(tickMs, time) >= tick <==> time >= tick * (tickMs * 1_000_000)
  {
    TicksOfNanos(tickMs, time);
    QuotientReaches(time / NANOS_PER_MILLI, tickMs, tick);
    QuotientReaches(time, NANOS_PER_MILLI, tick * tickMs);
    assert tick * tickMs == tickMs * tick;
    assert tick * tickMs * 1_000_000 == tick * (tickMs * 1_000_000);
  }

  lemma QuotientReaches(a: nat, d: nat, k: nat)
    requires d > 0
    ensures a / d >= k <==> a >= k * d
  {
    assert a == (a / d) * d + a % d;
    if a / d >= k {
      assert (a / d - k) * d >= 0;
    } else {
      assert (k - 1 - a / d) * d >= 0;
    }
  }

  // Going to the start of a tick and back loses only what the 32-bit narrowing loses.
  lemma TicksOfTickStart(tickMs: nat, tick: nat)
    requires tickMs > 0
    ensures TimeToTicks(tickMs, TickStart(tickMs, tick)) == tick % 0x1_0000_0000
  {
    var t := tick % TWO_32;
    TicksOfNanos(tickMs, TickStart(tickMs, tick));
    assert (tickMs * t) * NANOS_PER_MILLI / NANOS_PER_MILLI == tickMs * t;
    RemainderUnique(tickMs * t, tickMs, t, 0);
  }

  // ---------- the machine ----------

  function Create(tickMs: nat, numSlots: nat): Model {
    Model(tickMs, Repeat([], numSlots), Repeat(None, numSlots), map[], {}, 0, [], [])
  }

  function CurSlot(m: Model): nat
    requires |m.lists| > 0
  {
    m.cur % |m.lists|
  }

  function Tick(m: Model, t: Timer): nat
    requires m.tickMs > 0
  {
    TimeToTicks(m.tickMs, t.when)
  }

  // Structure: the lists partition the armed tokens by slot, and the cursor is inside the list of
  // the current slot.
  ghost predicate Inv(m: Model) {
    && m.tickMs > 0 && |m.lists| > 0 && |m.nexts| == |m.lists|
    && (forall i :: 0 <= i < |m.lists| ==> NoDup(m.lists[i]))
    && (forall i, t {:trigger t in m.lists[i]} :: 0 <= i < |m.lists| && t in m.lists[i] ==> t in m.timers && m.timers[t].slot == i)
    && (forall t :: t in m.timers ==> m.timers[t].slot < |m.lists| && t in m.lists[m.timers[t].slot])
    && m.reserved !! m.timers.Keys
    && m.lists[CurSlot(m)] == m.passed + m.left
  }

  // Time: a timeout sits in the slot of its tick, no timeout has been overtaken by the cursor, and
  // those of the current tick are still to be visited.
  ghost predicate TimeInv(m: Model)
    requires Inv(m)
  {
    forall t :: t in m.timers ==>
      && m.timers[t].slot == Tick(m, m.timers[t]) % |m.lists|
      && Tick(m, m.timers[t]) >= m.cur
      && (Tick(m, m.timers[t]) == m.cur ==> t in m.left)
  }

  ghost predicate Covered(m: Model, t: Token)
    requires Inv(m) && t in m.timers
  {
    var next := m.nexts[m.timers[t].slot];
    next.Some? && next.value <= m.timers[t].when
  }

  // The slot minima bound every timeout except those the cursor has still to visit in its slot.
  ghost predicate CoverInv(m: Model)
    requires Inv(m)
  {
    forall t :: t in m.timers && t !in m.left ==> Covered(m, t)
  }

  ghost predicate FullyCovered(m: Model)
    requires Inv(m)
  {
    forall t :: t in m.timers ==> Covered(m, t)
  }

  // How many tokens are armed or reserved.
  function Taken(m: Model): nat {
    |m.timers| + |m.reserved|
  }

  // A timeout asked for the current tick or an earlier one is deferred to the next tick.
  function EffectiveTick(m: Model, at: nat): nat
    requires m.tickMs > 0
  {
    var tick := TimeToTicks(m.tickMs, at);
    if tick <= m.cur then m.cur + 1 else tick
  }

  function Reserve(m: Model, tok: Token): Model {
    m.(reserved := m.reserved + {tok})
  }

  function Lower(next: Option<nat>, when: nat): Option<nat> {
    if next.None? || when <= next.value then Some(when) else next
  }

  function Arm(m: Model, tok: Token, at: nat, task: nat): Model
    requires Inv(m)
  {
    var tick := EffectiveTick(m, at);
    var slot := tick % |m.lists|;
    var when := TickStart(m.tickMs, tick);
    m.(lists := m.lists[slot := [tok] + m.lists[slot]],
       nexts := m.nexts[slot := Lower(m.nexts[slot], when)],
       timers := m.timers[tok := Timer(task, when, slot)],
       reserved := m.reserved - {tok},
       passed := if slot == CurSlot(m) then [tok] + m.passed else m.passed)
  }

  // Takes a token out of the wheel, whether armed, reserved or absent.
  function Remove(m: Model, tok: Token): Model
    requires Inv(m)
  {
    if tok in m.timers then
      var slot := m.timers[tok].slot;
      m.(lists := m.lists[slot := Without(m.lists[slot], tok)],
         timers := m.timers - {tok},
         passed := Without(m.passed, tok),
         left := Without(m.left, tok))
    else
      m.(reserved := m.reserved - {tok})
  }

  // The end of a slot's list: go to the next tick.
  function Advance(m: Model): Model
    requires Inv(m)
  {
    m.(nexts := if m.lists[CurSlot(m)] == [] then m.nexts[CurSlot(m) := None] else m.nexts,
       cur := m.cur + 1,
       passed := [],
       left := m.lists[(m.cur + 1) % |m.lists|])
  }

  // The start of a walk over a slot's list forgets the slot's minimum.
  function ClearAtHead(m: Model): Model
    requires Inv(m)
  {
    if m.passed == [] then m.(nexts := m.nexts[CurSlot(m) := None]) else m
  }

  // Steps over the timeout under the cursor, which is not due yet, and restores the minimum.
  function Skip(m: Model): Model
    requires Inv(m) && m.left != []
  {
    var c := ClearAtHead(m);
    LeftIsArmed(m);
    c.(passed := m.passed + [m.left[0]],
       left := m.left[1..],
       nexts := c.nexts[CurSlot(m) := Lower(c.nexts[CurSlot(m)], m.timers[m.left[0]].when)])
  }

  // Removes the timeout under the cursor.
  function Fire(m: Model): Model
    requires Inv(m) && m.left != []
  {
    ClearKeepsInv(m);
    Remove(ClearAtHead(m), m.left[0])
  }

  // One call of poll at the tick `now`: the wheel afterwards and the token that fired, if any.
  function Poll(m: Model, now: nat): (r: (Model, Option<Token>))
    requires Inv(m)
    ensures Inv(r.0) && r.0.tickMs == m.tickMs && |r.0.lists| == |m.lists|
    decreases if m.cur <= now then now + 1 - m.cur else 0, |m.left|
  {
    if m.cur > now then (m, None)
    else if m.left == [] then
      AdvanceKeepsInv(m);
      Poll(Advance(m), now)
    else
      LeftIsArmed(m);
      var tok := m.left[0];
      if Tick(m, m.timers[tok]) <= now then
        FireKeepsInv(m);
        (Fire(m), Some(tok))
      else
        SkipKeepsInv(m);
        Poll(Skip(m), now)
  }

  lemma SameModel(a: Model, b: Model)
    requires a.tickMs == b.tickMs && a.lists == b.lists && a.nexts == b.nexts && a.timers == b.timers
    requires a.reserved == b.reserved && a.cur == b.cur && a.passed == b.passed && a.left == b.left
    ensures a == b
  {
  }

  // ---------- every operation keeps the structure ----------

  lemma LeftIsArmed(m: Model)
    requires Inv(m)
    ensures forall t :: t in m.left ==> t in m.timers && m.timers[t].slot == CurSlot(m)
    ensures forall t :: t in m.passed ==> t in m.timers && m.timers[t].slot == CurSlot(m) && t !in m.left
    ensures NoDup(m.left) && NoDup(m.passed)
  {
    NoDupParts(m.passed, m.left);
    forall t | t in m.left || t in m.passed ensures t in m.lists[CurSlot(m)] {
    }
  }

  lemma CreateKeepsInv(tickMs: nat, numSlots: nat)
    requires tickMs > 0 && numSlots > 0
    ensures Inv(Create(tickMs, numSlots)) && TimeInv(Create(tickMs, numSlots))
    ensures FullyCovered(Create(tickMs, numSlots))
  {
  }

  lemma ReserveKeepsInv(m: Model, tok: Token)
    requires Inv(m) && tok !in m.timers
    ensures Inv(Reserve(m, tok))
  {
  }

  lemma ArmKeepsInv(m: Model, tok: Token, at: nat, task: nat)
    requires Inv(m) && tok !in m.timers
    ensures Inv(Arm(m, tok, at, task))
  {
    var slot := EffectiveTick(m, at) % |m.lists|;
    var m' := Arm(m, tok, at, task);
    ConsNoDup(tok, m.lists[slot]);
    assert m'.lists[slot] == [tok] + m.lists[slot];
    if slot == CurSlot(m) {
      assert m'.lists[slot] == m'.passed + m'.left;
    }
  }

  lemma RemoveKeepsInv(m: Model, tok: Token)
    requires Inv(m)
    ensures Inv(Remove(m, tok))
  {
    if tok in m.timers {
      WithoutElements(m.lists[m.timers[tok].slot], tok);
      CursorSplitWithout(m, tok);
    }
  }

  lemma CursorSplitWithout(m: Model, tok: Token)
    requires Inv(m) && tok in m.timers
    ensures Remove(m, tok).lists[CurSlot(m)] == Without(m.passed, tok) + Without(m.left, tok)
  {
    if m.timers[tok].slot == CurSlot(m) {
      WithoutConcat(m.passed, m.left, tok);
    } else {
      LeftIsArmed(m);
      WithoutAbsent(m.left, tok);
      WithoutAbsent(m.passed, tok);
    }
  }

  lemma ClearKeepsInv(m: Model)
    requires Inv(m)
    ensures Inv(ClearAtHead(m))
  {
  }

  lemma AdvanceKeepsInv(m: Model)
    requires Inv(m)
    ensures Inv(Advance(m))
  {
  }

  lemma SkipKeepsInv(m: Model)
    requires Inv(m) && m.left != []
    ensures Inv(Skip(m))
  {
    assert m.passed + m.left == (m.passed + [m.left[0]]) + m.left[1..];
  }

  lemma FireKeepsInv(m: Model)
    requires Inv(m) && m.left != []
    ensures Inv(Fire(m))
  {
    ClearKeepsInv(m);
    RemoveKeepsInv(ClearAtHead(m), m.left[0]);
  }
}
