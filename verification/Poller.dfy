// The poller: it drains the timer wheel and hands every fired timer to the runner it belongs to,
// through ids that pack a runner number and a fiber slot into one word.
module Poller {
  import opened Wrappers
  import opened Sequences
  import opened Bits
  import opened WheelSpec
  import opened WheelTheorems
  import W = Wheel

  const TICK_MS: nat := 250
  const MAX_RUNNERS: nat := 20

  // ---------- packed ids ----------

  function FiberId(runner: nat, pos: nat): nat {
    Or(pos, runner * TWO_40)
  }

  function SplitId(id: nat): (nat, nat) {
    (And(id / TWO_40, 255), And(id, TWO_32 - 1))
  }

  lemma SplitIsDivision(id: nat)
    ensures SplitId(id) == ((id / TWO_40) % 256, id % TWO_32)
  {
    Pow2Values();
    PowerOfTwoSharesNoBit(8);
    PowerOfTwoSharesNoBit(32);
    MaskIsModulo(id / TWO_40, 256);
    MaskIsModulo(id, TWO_32);
  }

  // The slot takes the low forty bits of an id, and the runner's number stands above them.
  lemma PackedBits(runner: nat, pos: nat)
    requires pos < 0x100_0000_0000
    ensures FiberId(runner, pos) == pos + runner * 0x100_0000_0000
  {
    Pow2Values();
    OrOfDisjoint(pos, runner, 40);
  }

  // Packing is undone by splitting exactly for the runners and slots that fit.
  lemma SplitUndoesPacking(runner: nat, pos: nat)
    ensures SplitId(FiberId(runner, pos)) == (runner, pos) <==> runner < 256 && pos < TWO_32
  {
    hide And, Or;
    SplitIsDivision(FiberId(runner, pos));
    if runner < 256 && pos < TWO_32 {
      Pow2Values();
      OrOfDisjoint(pos, runner, 40);
      UnpackSum(runner, pos);
    }
  }

  lemma UnpackSum(runner: nat, pos: nat)
    requires runner < 256 && pos < TWO_32
    ensures ((pos + runner * TWO_40) / TWO_40) % 256 == runner && (pos + runner * TWO_40) % TWO_32 == pos
  {
    RemainderUnique(pos + runner * TWO_40, TWO_40, runner, pos);
    RemainderUnique(pos + runner * TWO_40, TWO_32, runner * 256, pos);
  }

  // An id made for one of the runners.
  predicate Packed(id: nat, runners: nat) {
    var (runner, pos) := SplitId(id);
    runner < runners && id == FiberId(runner, pos)
  }

  // ---------- dispatching to queues ----------

  // What is dispatched says which runner it is for.
  predicate Addressed<T>(parcels: seq<(nat, T)>, runners: nat) {
    forall i :: 0 <= i < |parcels| ==> parcels[i].0 < runners
  }

  // Pushes each parcel's content on the back of its runner's queue.
  function Dispatch<T>(queues: seq<seq<T>>, parcels: seq<(nat, T)>): (r: seq<seq<T>>)
    requires Addressed(parcels, |queues|)
    ensures |r| == |queues|
  {
    if parcels == [] then queues
    else
      var last := |parcels| - 1;
      var (runner, content) := parcels[last];
      var before := Dispatch(queues, parcels[..last]);
      before[runner := before[runner] + [content]]
  }

  // What is dispatched to one runner, in order.
  function For<T>(runner: nat, parcels: seq<(nat, T)>): seq<T> {
    if parcels == [] then []
    else
      var last := |parcels| - 1;
      For(runner, parcels[..last]) + (if parcels[last].0 == runner then [parcels[last].1] else [])
  }

  // Each runner's queue grows by exactly what is for it, in order.
  lemma {:induction false} DispatchAppends<T>(queues: seq<seq<T>>, parcels: seq<(nat, T)>, runner: nat)
    requires Addressed(parcels, |queues|) && runner < |queues|
    ensures Dispatch(queues, parcels)[runner] == queues[runner] + For(runner, parcels)
  {
    if parcels != [] {
      DispatchAppends(queues, parcels[..|parcels| - 1], runner);
    }
  }

  // Signalled sockets, and fired timers, as a runner and a slot number each.
  function SplitIds(ids: seq<nat>): (r: seq<(nat, nat)>)
    ensures |r| == |ids| && forall i :: 0 <= i < |r| ==> r[i] == SplitId(ids[i])
  {
    seq(|ids|, i requires 0 <= i < |ids| => SplitId(ids[i]))
  }

  function Parcels(timers: map<Token, Timer>, fired: seq<Token>): (r: seq<(nat, nat)>)
    requires forall i :: 0 <= i < |fired| ==> fired[i] in timers
    ensures |r| == |fired| && forall i :: 0 <= i < |r| ==> r[i] == SplitId(timers[fired[i]].task)
  {
    seq(|fired|, i requires 0 <= i < |fired| => SplitId(timers[fired[i]].task))
  }

  function WithTask(timers: map<Token, Timer>, toks: set<Token>, task: nat): set<Token> {
    set t | t in toks && t in timers && timers[t].task == task
  }

  function Elements(s: seq<Token>): set<Token> {
    set t | t in s
  }

  // Each slot number is pushed once for every fired timer that carries it.
  lemma {:induction false} DispatchCounts(timers: map<Token, Timer>, fired: seq<Token>, runner: nat, pos: nat)
    requires NoDup(fired) && (forall i :: 0 <= i < |fired| ==> fired[i] in timers)
    requires runner < 256 && pos < TWO_32
    requires forall t :: t in timers ==> Packed(timers[t].task, 256)
    ensures multiset(For<nat>(runner, Parcels(timers, fired)))[pos] ==
            |WithTask(timers, Elements(fired), FiberId(runner, pos))|
  {
    if fired == [] {
      assert WithTask(timers, Elements(fired), FiberId(runner, pos)) == {};
    } else {
      var last := |fired| - 1;
      var rest, tok := fired[..last], fired[last];
      assert fired == rest + [tok];
      NoDupParts(rest, [tok]);
      DispatchCounts(timers, rest, runner, pos);
      OneMoreFor(timers, rest, tok, runner, pos);
      OneMoreWithTask(timers, rest, tok, FiberId(runner, pos));
    }
    hide For, Parcels, WithTask, Elements, SplitId, FiberId;
  }

  lemma OneMoreFor(timers: map<Token, Timer>, rest: seq<Token>, tok: Token, runner: nat, pos: nat)
    requires (forall i :: 0 <= i < |rest| ==> rest[i] in timers) && tok in timers
    requires runner < 256 && pos < TWO_32 && Packed(timers[tok].task, 256)
    ensures multiset(For<nat>(runner, Parcels(timers, rest + [tok])))[pos] ==
            multiset(For<nat>(runner, Parcels(timers, rest)))[pos] + if timers[tok].task == FiberId(runner, pos) then 1 else 0
  {
    var task := timers[tok].task;
    SplitUndoesPacking(runner, pos);
    assert task == FiberId(runner, pos) <==> SplitId(task) == (runner, pos);
    assert Parcels(timers, rest + [tok]) == Parcels(timers, rest) + [SplitId(task)];
    hide FiberId, Parcels, Packed, And, SplitId;
    ForOneMore(runner, Parcels(timers, rest), SplitId(task));
    CountOneMore(For<nat>(runner, Parcels(timers, rest)), SplitId(task).0 == runner, SplitId(task).1, pos);
  }

  lemma ForOneMore<T>(runner: nat, parcels: seq<(nat, T)>, x: (nat, T))
    ensures For(runner, parcels + [x]) == For(runner, parcels) + (if x.0 == runner then [x.1] else [])
  {
    assert (parcels + [x])[..|parcels|] == parcels;
  }

  lemma CountOneMore(s: seq<nat>, more: bool, x: nat, pos: nat)
    ensures multiset(s + (if more then [x] else []))[pos] == multiset(s)[pos] + if more && x == pos then 1 else 0
  {
  }

  lemma OneMoreWithTask(timers: map<Token, Timer>, rest: seq<Token>, tok: Token, task: nat)
    requires tok in timers && tok !in rest
    ensures |WithTask(timers, Elements(rest + [tok]), task)| ==
            |WithTask(timers, Elements(rest), task)| + if timers[tok].task == task then 1 else 0
  {
    var before, after := WithTask(timers, Elements(rest), task), WithTask(timers, Elements(rest + [tok]), task);
    if timers[tok].task == task {
      assert after == before + {tok};
    } else {
      assert after == before;
    }
  }

  // Main result: when the wheel is drained, every due timer adds exactly one entry, to the queue of
  // its own runner and with its own slot number, and nothing else is added.
  lemma TimerDispatch(m: Model, now: nat, queues: seq<seq<nat>>, runner: nat, pos: nat)
    requires Inv(m) && TimeInv(m) && runner < |queues| <= 256 && pos < TWO_32
    requires forall t :: t in m.timers ==> Packed(m.timers[t].task, |queues|)
    ensures var fired := Drain(m, now).1;
            && (forall i :: 0 <= i < |fired| ==> fired[i] in m.timers)
            && Addressed(Parcels(m.timers, fired), |queues|)
            && var added := For<nat>(runner, Parcels(m.timers, fired));
               && Dispatch<nat>(queues, Parcels(m.timers, fired))[runner] == queues[runner] + added
               && multiset(added)[pos] == |WithTask(m.timers, Due(m, now), FiberId(runner, pos))|
  {
    DrainExact(m, now);
    hide Inv, TimeInv, Drain;
    DispatchFired(m, Drain(m, now).0, Drain(m, now).1, now, queues, runner, pos);
  }

  lemma DispatchFired(m: Model, m': Model, fired: seq<Token>, now: nat, queues: seq<seq<nat>>, runner: nat, pos: nat)
    requires m.tickMs > 0 && DrainedExactly(m, m', fired, now) && runner < |queues| <= 256 && pos < TWO_32
    requires forall t :: t in m.timers ==> Packed(m.timers[t].task, |queues|)
    ensures && (forall i :: 0 <= i < |fired| ==> fired[i] in m.timers)
            && Addressed(Parcels(m.timers, fired), |queues|)
            && var added := For<nat>(runner, Parcels(m.timers, fired));
               && Dispatch<nat>(queues, Parcels(m.timers, fired))[runner] == queues[runner] + added
               && multiset(added)[pos] == |WithTask(m.timers, Due(m, now), FiberId(runner, pos))|
  {
    hide *;
    FiredAreDue(m, m', fired, now);
    ParcelsAddressed(m.timers, fired, |queues|);
    DispatchAppends<nat>(queues, Parcels(m.timers, fired), runner);
    DispatchCounts(m.timers, fired, runner, pos);
  }

  lemma FiredAreDue(m: Model, m': Model, fired: seq<Token>, now: nat)
    requires m.tickMs > 0 && DrainedExactly(m, m', fired, now)
    ensures (forall i :: 0 <= i < |fired| ==> fired[i] in m.timers) && NoDup(fired) && Elements(fired) == Due(m, now)
  {
    assert forall i :: 0 <= i < |fired| ==> fired[i] in Due(m, now);
  }

  lemma ParcelsAddressed(timers: map<Token, Timer>, fired: seq<Token>, runners: nat)
    requires forall i :: 0 <= i < |fired| ==> fired[i] in timers
    requires runners <= 256 && forall t :: t in timers ==> Packed(timers[t].task, runners)
    ensures Addressed(Parcels(timers, fired), runners) && forall t :: t in timers ==> Packed(timers[t].task, 256)
  {
  }

  // What a poll adds to the timed-out queues: for each runner and slot, one entry for every timer of
  // theirs that was due.
  ghost predicate Dispatched(m: Model, now: nat, before: seq<seq<nat>>, after: seq<seq<nat>>)
    requires m.tickMs > 0
  {
    |after| == |before| && forall runner: nat, pos: nat :: DispatchedTo(m, now, before, after, runner, pos)
  }

  ghost predicate DispatchedTo(m: Model, now: nat, before: seq<seq<nat>>, after: seq<seq<nat>>, runner: nat, pos: nat)
    requires m.tickMs > 0
  {
    runner < |before| && runner < |after| && pos < TWO_32 ==>
      && before[runner] <= after[runner]
      && multiset(after[runner][|before[runner]|..])[pos] == |WithTask(m.timers, Due(m, now), FiberId(runner, pos))|
  }

  lemma DrainDispatches(m: Model, now: nat, queues: seq<seq<nat>>)
    requires Inv(m) && TimeInv(m) && |queues| == MAX_RUNNERS && AllPacked(m)
    ensures var (m', fired) := Drain(m, now);
            && (forall i :: 0 <= i < |fired| ==> fired[i] in m.timers) && Addressed(Parcels(m.timers, fired), |queues|)
            && TimeInv(m') && Dispatched(m, now, queues, Dispatch<nat>(queues, Parcels(m.timers, fired)))
  {
    DrainExact(m, now);
    hide FiberId, SplitId, And, Inv, TimeInv, Drain, Dispatch, Parcels, WithTask, Due, For;
    TimerDispatch(m, now, queues, 0, 0);
    var after := Dispatch<nat>(queues, Parcels(m.timers, Drain(m, now).1));
    forall runner: nat, pos: nat ensures DispatchedTo(m, now, queues, after, runner, pos) {
      if runner < |queues| && pos < TWO_32 {
        TimerDispatch(m, now, queues, runner, pos);
        var added := For<nat>(runner, Parcels(m.timers, Drain(m, now).1));
        assert (queues[runner] + added)[|queues[runner]|..] == added;
      }
    }
  }

  lemma KeepsTime(m: Model, now: nat, queues: seq<seq<nat>>)
    requires Inv(m) && |queues| == MAX_RUNNERS && AllPacked(m)
    ensures TimeInv(m) ==>
      var (m', fired) := Drain(m, now);
      && (forall i :: 0 <= i < |fired| ==> fired[i] in m.timers) && Addressed(Parcels(m.timers, fired), |queues|)
      && TimeInv(m') && Dispatched(m, now, queues, Dispatch<nat>(queues, Parcels(m.timers, fired)))
  {
    if TimeInv(m) {
      DrainDispatches(m, now, queues);
    }
  }

  // What polling the timers at tick `now` does to the wheel and to the timed-out queues: one drain of
  // the wheel, dispatched. A wheel that kept time still does, and each due timer is queued exactly once.
  ghost predicate TimersPolled(m: Model, now: nat, before: seq<seq<nat>>, m': Model, after: seq<seq<nat>>, any: bool) {
    && Inv(m)
    && var (drained, fired) := Drain(m, now);
       && (forall i :: 0 <= i < |fired| ==> fired[i] in m.timers)
       && Addressed(Parcels(m.timers, fired), |before|)
       && m' == drained && after == Dispatch<nat>(before, Parcels(m.timers, fired)) && (any <==> fired != [])
       && (TimeInv(m) ==> TimeInv(m') && Dispatched(m, now, before, after))
  }

  // ---------- lookup results ----------

  // An address found for a fiber; the generation tells a later fiber in the same slot apart.
  datatype Found = Found(id: nat, generation: nat, addr: nat)

  function FoundParcel(f: Found): (nat, (nat, nat, nat)) {
    (SplitId(f.id).0, (SplitId(f.id).1, f.generation, f.addr))
  }

  function FoundParcels(found: seq<Found>): (r: seq<(nat, (nat, nat, nat))>)
    ensures |r| == |found| && forall i :: 0 <= i < |r| ==> r[i] == FoundParcel(found[i])
  {
    seq(|found|, i requires 0 <= i < |found| => FoundParcel(found[i]))
  }

  // A result reaches the queue of the runner it was found for, with the slot, the generation and the
  // address it was found with.
  lemma FoundForItsFiber(found: seq<Found>, runner: nat, pos: nat, k: nat)
    requires k < |found| && found[k].id == FiberId(runner, pos) && runner < 256 && pos < 0x1_0000_0000
    ensures FoundParcels(found)[k] == (runner, (pos, found[k].generation, found[k].addr))
  {
    SplitUndoesPacking(runner, pos);
  }

  // ---------- the poller ----------

  ghost predicate AllPacked(m: Model) {
    forall t :: t in m.timers ==> Packed(m.timers[t].task, MAX_RUNNERS)
  }

  // Part of the way through a drain of m: some timers have fired, and cur is left to drain.
  ghost predicate Draining(m: Model, tick: nat, cur: Model, fired: seq<Token>) {
    && Inv(m) && Inv(cur) && cur.tickMs == m.tickMs
    && Drain(m, tick).0 == Drain(cur, tick).0 && Drain(m, tick).1 == fired + Drain(cur, tick).1
    && (forall i :: 0 <= i < |fired| ==> fired[i] in m.timers)
    && Remaining(m, cur)
  }

  ghost predicate Remaining(m: Model, cur: Model) {
    forall t :: t in cur.timers ==> t in m.timers && cur.timers[t] == m.timers[t]
  }

  lemma DrainingStarts(m: Model, tick: nat)
    requires Inv(m)
    ensures Draining(m, tick, m, [])
  {
    assert [] + Drain(m, tick).1 == Drain(m, tick).1;
  }

  lemma DrainingGoesOn(m: Model, tick: nat, cur: Model, fired: seq<Token>, tok: Token)
    requires Draining(m, tick, cur, fired) && Poll(cur, tick).1 == Some(tok)
    ensures var cur' := Poll(cur, tick).0;
            && tok in cur.timers && tok in m.timers && cur.timers[tok] == m.timers[tok]
            && |cur'.timers| < |cur.timers| && Remaining(cur, cur')
            && Draining(m, tick, cur', fired + [tok])
  {
    PollShrinks(cur, tick, tok);
    DrainUnfolds(cur, tick);
    hide Inv, Poll, Drain;
    var cur' := Poll(cur, tick).0;
    StillRemaining(m, cur, cur', fired, tok);
    hide Remaining;
    Regroup(fired, [tok], Drain(cur', tick).1);
  }

  lemma StillRemaining(m: Model, cur: Model, cur': Model, fired: seq<Token>, tok: Token)
    requires Remaining(m, cur) && Remaining(cur, cur') && tok in cur.timers
    requires forall i :: 0 <= i < |fired| ==> fired[i] in m.timers
    ensures Remaining(m, cur') && forall i :: 0 <= i < |fired + [tok]| ==> (fired + [tok])[i] in m.timers
    ensures tok in m.timers && cur.timers[tok] == m.timers[tok]
  {
  }

  lemma PollShrinks(cur: Model, tick: nat, tok: Token)
    requires Inv(cur) && Poll(cur, tick).1 == Some(tok)
    ensures tok in cur.timers && |Poll(cur, tick).0.timers| < |cur.timers| && Remaining(cur, Poll(cur, tick).0)
  {
    PollTakesOnlyTheFired(cur, tick);
    SmallerMap(cur.timers, tok);
  }

  lemma DrainingEnds(m: Model, tick: nat, cur: Model, fired: seq<Token>)
    requires Draining(m, tick, cur, fired) && Poll(cur, tick).1 == None
    ensures Drain(m, tick) == (Poll(cur, tick).0, fired) && Remaining(cur, Poll(cur, tick).0)
    ensures forall i :: 0 <= i < |fired| ==> fired[i] in m.timers
  {
    DrainUnfolds(cur, tick);
    PollTakesOnlyTheFired(cur, tick);
    assert fired + [] == fired;
  }

  // The fired timers have been handed to the queues.
  ghost predicate Queued(m: Model, fired: seq<Token>, queues: seq<seq<nat>>, now: seq<seq<nat>>) {
    && (forall i :: 0 <= i < |fired| ==> fired[i] in m.timers)
    && Addressed(Parcels(m.timers, fired), |queues|)
    && now == Dispatch<nat>(queues, Parcels(m.timers, fired))
  }

  lemma QueuedMeans(m: Model, fired: seq<Token>, queues: seq<seq<nat>>, now: seq<seq<nat>>)
    requires Queued(m, fired, queues, now)
    ensures (forall i :: 0 <= i < |fired| ==> fired[i] in m.timers) && Addressed(Parcels(m.timers, fired), |queues|)
    ensures now == Dispatch<nat>(queues, Parcels(m.timers, fired))
  {
  }

  lemma QueuedOneMore(m: Model, fired: seq<Token>, tok: Token, queues: seq<seq<nat>>, now: seq<seq<nat>>)
    requires Queued(m, fired, queues, now) && tok in m.timers && Packed(m.timers[tok].task, |queues|)
    ensures var (runner, pos) := SplitId(m.timers[tok].task);
            runner < |now| && Queued(m, fired + [tok], queues, now[runner := now[runner] + [pos]])
  {
    DispatchOneMore(queues, m.timers, fired, tok);
  }

  lemma DrainStep(m: Model, tick: nat, cur: Model, fired: seq<Token>, queues: seq<seq<nat>>, now: seq<seq<nat>>)
    returns (tok: Token)
    requires Draining(m, tick, cur, fired) && Queued(m, fired, queues, now)
    requires AllPacked(cur) && |queues| == MAX_RUNNERS
    ensures var (cur', r) := Poll(cur, tick);
            && AllPacked(cur')
            && (r.None? ==> Drain(m, tick) == (cur', fired))
            && (r.Some? ==>
                  && r.value == tok && tok in cur.timers
                  && Draining(m, tick, cur', fired + [tok]) && |cur'.timers| < |cur.timers|
                  && var (runner, pos) := SplitId(cur.timers[tok].task);
                     && runner < |now|
                     && Queued(m, fired + [tok], queues, now[runner := now[runner] + [pos]]))
  {
    hide Inv, Poll, Drain;
    var r := Poll(cur, tick).1;
    if r.Some? {
      tok := r.value;
      DrainingGoesOn(m, tick, cur, fired, tok);
      QueuedOneMore(m, fired, tok, queues, now);
    } else {
      tok := 0;
      DrainingEnds(m, tick, cur, fired);
    }
  }

  class PollerInt {
    var wheel: W.Wheel
    var toexec: seq<seq<nat>>
    var timedout: seq<seq<nat>>
    var lookupResults: seq<seq<(nat, nat, nat)>>

    ghost predicate Valid()
      reads this, wheel
    {
      && wheel.Valid() && wheel.tickMs == TICK_MS && wheel.capacity > 0 && wheel.maxCapacity == 4_194_304
      && |toexec| == MAX_RUNNERS && |timedout| == MAX_RUNNERS && |lookupResults| == MAX_RUNNERS
      && AllPacked(wheel.Abs())
    }

    constructor ()
      ensures Valid() && fresh(wheel)
      ensures wheel.Abs() == Create(250, 4096) && wheel.capacity == 256 && wheel.maxCapacity == 4_194_304
      ensures toexec == timedout == Repeat([], 20) && lookupResults == Repeat([], 20)
    {
      assert And(4096, 4095) == 0 by {
        Pow2Values();
        PowerOfTwoSharesNoBit(12);
      }
      wheel := new W.Wheel(TICK_MS, 4096, 256, 4_194_304);
      toexec, timedout, lookupResults := Repeat([], MAX_RUNNERS), Repeat([], MAX_RUNNERS), Repeat([], MAX_RUNNERS);
    }

    // Polls sockets, then timers, then lookup results. `events` are the tokens of the signalled sockets,
    // or None when the socket poll fails; `now` is the instant read after it; `found` are the lookups
    // that have been answered. Returns whether anything happened.
    method Poll(events: Option<seq<nat>>, now: nat, found: seq<Found>) returns (smth: bool)
      requires Valid() && (events.Some? ==> Addressed(SplitIds(events.value), MAX_RUNNERS)) && Addressed(FoundParcels(found), MAX_RUNNERS)
      modifies this, wheel
      ensures Valid() && wheel == old(wheel)
      ensures events.None? ==>
        && !smth && wheel.Abs() == old(wheel.Abs()) && toexec == old(toexec) && timedout == old(timedout)
        && lookupResults == old(lookupResults)
      ensures events.Some? ==> exists any: bool ::
        && TimersPolled(old(wheel.Abs()), TimeToTicks(wheel.tickMs, now), old(timedout), wheel.Abs(), timedout, any)
        && toexec == Dispatch<nat>(old(toexec), SplitIds(events.value))
        && lookupResults == Dispatch(old(lookupResults), FoundParcels(found))
        && (smth <==> events.value != [] || any || found != [])
    {
      if events.None? {
        return false;
      }
      hide *;
      QueueEvents(events.value);
      smth := |events.value| > 0;
      var any := PollTimers(now);
      DeliverFound(found);
      smth := smth || any || |found| > 0;
    }

    // Queues the fibers whose sockets were signalled.
    method QueueEvents(events: seq<nat>)
      requires Addressed(SplitIds(events), |toexec|)
      modifies this`toexec
      ensures toexec == Dispatch<nat>(old(toexec), SplitIds(events))
    {
      for i := 0 to |events|
        invariant toexec == Dispatch<nat>(old(toexec), SplitIds(events[..i]))
      {
        assert SplitIds(events[..i + 1]) == SplitIds(events[..i]) + [SplitId(events[i])];
        DispatchSnoc(old(toexec), SplitIds(events[..i]), SplitId(events[i]));
        var (runner, pos) := SplitId(events[i]);
        toexec := toexec[runner := toexec[runner] + [pos]];
      }
      assert events[..|events|] == events;
    }

    // Hands the lookup results to the queues of their runners.
    method DeliverFound(found: seq<Found>)
      requires Addressed(FoundParcels(found), |lookupResults|)
      modifies this`lookupResults
      ensures lookupResults == Dispatch(old(lookupResults), FoundParcels(found))
    {
      for i := 0 to |found|
        invariant lookupResults == Dispatch(old(lookupResults), FoundParcels(found[..i]))
      {
        assert FoundParcels(found[..i + 1]) == FoundParcels(found[..i]) + [FoundParcel(found[i])];
        DispatchSnoc(old(lookupResults), FoundParcels(found[..i]), FoundParcel(found[i]));
        var (runner, entry) := FoundParcel(found[i]);
        lookupResults := lookupResults[runner := lookupResults[runner] + [entry]];
      }
      assert found[..|found|] == found;
    }

    // Polls the timers.
    method PollTimers(now: nat) returns (any: bool)
      requires Valid()
      modifies this`timedout, wheel
      ensures Valid()
      ensures TimersPolled(old(wheel.Abs()), TimeToTicks(wheel.tickMs, now), old(timedout), wheel.Abs(), timedout, any)
    {
      ghost var m := wheel.Abs();
      KeepsTime(m, TimeToTicks(m.tickMs, now), timedout);
      hide Inv, TimeInv, Drain, Dispatch, Dispatched, Parcels, AllPacked, Addressed;
      any := DrainTimers(now);
    }

    // Polls the wheel at one instant until it returns nothing.
    method DrainTimers(now: nat) returns (any: bool)
      requires Valid()
      modifies this`timedout, wheel
      ensures Valid()
      ensures var m := old(wheel.Abs());
              var (m', fired) := Drain(m, TimeToTicks(m.tickMs, now));
              && (forall i :: 0 <= i < |fired| ==> fired[i] in m.timers)
              && Addressed(Parcels(m.timers, fired), MAX_RUNNERS)
              && wheel.Abs() == m'
              && timedout == Dispatch<nat>(old(timedout), Parcels(m.timers, fired))
              && (any <==> fired != [])
    {
      ghost var m := wheel.Abs();
      ghost var tick := TimeToTicks(m.tickMs, now);
      hide Draining, Queued, Drain, Inv, Dispatch, Parcels, Addressed, AllPacked, TimeToTicks, W.Wheel.Valid, W.Wheel.Abs;
      DrainBegins(m, tick);
      ghost var fired;
      any, fired := FireAll(now, m, tick, timedout);
      QueuedMeans(m, fired, old(timedout), timedout);
    }

    lemma DrainBegins(m: Model, tick: nat)
      requires Valid() && m == wheel.Abs()
      ensures Inv(m) && m.tickMs == wheel.tickMs > 0
      ensures Draining(m, tick, m, []) && Queued(m, [], timedout, timedout)
    {
      DrainingStarts(m, tick);
    }

    // The loop that polls until nothing fires; `m` and `queues` are the wheel and the queues it started from.
    method FireAll(now: nat, ghost m: Model, ghost tick: nat, ghost queues: seq<seq<nat>>)
      returns (any: bool, ghost fired: seq<Token>)
      requires wheel.Valid() && AllPacked(wheel.Abs()) && |timedout| == |queues| == MAX_RUNNERS
      requires Inv(m) && m.tickMs == wheel.tickMs > 0 && tick == TimeToTicks(m.tickMs, now)
      requires Draining(m, tick, wheel.Abs(), []) && Queued(m, [], queues, timedout)
      modifies this`timedout, wheel
      ensures wheel.Valid() && AllPacked(wheel.Abs()) && |timedout| == MAX_RUNNERS && wheel.capacity == old(wheel.capacity)
      ensures Drain(m, tick) == (wheel.Abs(), fired) && Queued(m, fired, queues, timedout)
      ensures any <==> fired != []
    {
      hide *;
      any, fired := false, [];
      var more := true;
      while more
        invariant wheel.Valid() && AllPacked(wheel.Abs()) && |timedout| == MAX_RUNNERS && wheel.capacity == old(wheel.capacity)
        invariant Queued(m, fired, queues, timedout)
        invariant if more then Draining(m, tick, wheel.Abs(), fired) else Drain(m, tick) == (wheel.Abs(), fired)
        invariant any <==> fired != []
        decreases more, |wheel.Abs().timers|
      {
        ghost var tok;
        more, tok := FireOne(now, m, tick, fired, queues);
        if more {
          any, fired := true, fired + [tok];
        }
      }
    }

    // One poll of the wheel: queues the timer that fires, if any.
    method FireOne(now: nat, ghost m: Model, ghost tick: nat, ghost fired: seq<Token>, ghost queues: seq<seq<nat>>)
      returns (more: bool, ghost tok: Token)
      requires wheel.Valid() && AllPacked(wheel.Abs()) && |timedout| == |queues| == MAX_RUNNERS
      requires m.tickMs == wheel.tickMs > 0 && tick == TimeToTicks(m.tickMs, now)
      requires Draining(m, tick, wheel.Abs(), fired) && Queued(m, fired, queues, timedout)
      modifies this`timedout, wheel
      ensures wheel.Valid() && AllPacked(wheel.Abs()) && |timedout| == MAX_RUNNERS && wheel.capacity == old(wheel.capacity)
      ensures !more ==> Drain(m, tick) == (wheel.Abs(), fired) && timedout == old(timedout)
      ensures more ==> Draining(m, tick, wheel.Abs(), fired + [tok]) && Queued(m, fired + [tok], queues, timedout)
      ensures more ==> |wheel.Abs().timers| < |old(wheel.Abs().timers)|
    {
      hide *;
      tok := DrainStep(m, tick, wheel.Abs(), fired, queues, timedout);
      var task := wheel.Poll(now);
      more := task.Some?;
      if more {
        var (runner, pos) := SplitId(task.value);
        timedout := timedout[runner := timedout[runner] + [pos]];
      }
    }

    // Arms a timer for a fiber, after a duration or one tick of 250 ms. Fails exactly when 4194304 timers
    // are set already. In the 32-bit range of ticks the wheel keeps time.
    method TimerReg(id: nat, dur: Option<nat>, now: nat) returns (r: Option<Token>)
      requires Valid() && Packed(id, MAX_RUNNERS)
      modifies wheel
      ensures Valid()
      ensures r.None? <==> Taken(old(wheel.Abs())) == 4_194_304
      ensures r.None? ==> wheel.Abs() == old(wheel.Abs())
      ensures r.Some? ==>
        TimerSet(old(wheel.Abs()), r.value, now + (if dur.Some? then dur.value else 250_000_000), id, wheel.Abs())
    {
      var delay := if dur.Some? then dur.value else TICK_MS * NANOS_PER_MILLI;
      ghost var m := wheel.Abs();
      assert Inv(m) && AllPacked(m);
      hide *;
      r := ReserveToken();
      if r.Some? {
        ArmToken(r.value, now + delay, id, m);
      }
    }

    method ReserveToken() returns (r: Option<Token>)
      requires Valid()
      modifies wheel
      ensures Valid() && (r.None? <==> Taken(old(wheel.Abs())) == 4_194_304)
      ensures r.None? ==> wheel.Abs() == old(wheel.Abs())
      ensures r.Some? ==>
        && r.value !in old(wheel.Abs()).timers && r.value !in old(wheel.Abs()).reserved
        && wheel.Abs() == Reserve(old(wheel.Abs()), r.value) && wheel.Holds(r.value)
    {
      ghost var m := wheel.Abs();
      r := wheel.Reserve();
      assert r.Some? ==> wheel.Abs().timers == m.timers;
    }

    // Arms a token just reserved on the wheel `m`.
    method ArmToken(tok: Token, at: nat, id: nat, ghost m: Model)
      requires Valid() && wheel.Holds(tok) && Packed(id, MAX_RUNNERS)
      requires Inv(m) && AllPacked(m) && tok !in m.timers && tok !in m.reserved && wheel.Abs() == Reserve(m, tok)
      modifies wheel
      ensures Valid() && TimerSet(m, tok, at, id, wheel.Abs())
    {
      hide Inv, Arm, TimeInv, EffectiveTick, Reserve, TimerSet, AllPacked, Packed, W.RepOk, W.AbsOf;
      ReservedArms(m, tok, at, id);
      wheel.SetTimeout(tok, at, id);
    }

    method TimerCancel(tok: Token)
      requires Valid()
      modifies wheel
      ensures Valid() && wheel.Abs() == Remove(old(wheel.Abs()), tok)
      ensures TimeInv(old(wheel.Abs())) ==> TimeInv(wheel.Abs())
    {
      if TimeInv(wheel.Abs()) {
        RemoveKeepsTimeInv(wheel.Abs(), tok);
      }
      hide Inv, TimeInv, Remove, AllPacked;
      RemoveTimers(wheel.Abs(), tok);
      wheel.Cancel(tok);
    }
  }

  // A fresh token was reserved and armed for the instant `at`, that is for its tick or the one behind the
  // cursor, whichever is later. In the 32-bit range of ticks that is exact, and the wheel keeps time.
  ghost predicate TimerSet(m: Model, tok: Token, at: nat, task: nat, m': Model) {
    && tok !in m.timers && tok !in m.reserved && Inv(m) && Inv(m')
    && Inv(Reserve(m, tok)) && m' == Arm(Reserve(m, tok), tok, at, task)
    && tok in m'.timers && m'.timers[tok].task == task && m'.timers == m.timers[tok := m'.timers[tok]]
    && (ArmedTick(m, at) < 0x1_0000_0000 ==>
          m'.timers[tok].when / 1_000_000 / m.tickMs == ArmedTick(m, at) && (TimeInv(m) ==> TimeInv(m')))
  }

  function ArmedTick(m: Model, at: nat): (tick: nat)
    requires m.tickMs > 0
    ensures tick >= at / 1_000_000 / m.tickMs && tick > m.cur
    ensures tick == at / 1_000_000 / m.tickMs || tick == m.cur + 1
  {
    TicksOfNanos(m.tickMs, at);
    EffectiveTick(m, at)
  }

  // Main result on durations: a timer set for `at` fires in no drain a tick of 250 ms or more before it,
  // and in every drain, while it is still armed, whose tick is at least that of `at` and past the cursor's
  // when it was set; and then its slot is queued for its runner.
  lemma TimerOnTime(m: Model, tok: Token, at: nat, task: nat, m': Model, later: Model, now: nat, queues: seq<seq<nat>>)
    requires TimerSet(m, tok, at, task, m') && m.tickMs == 250 && ArmedTick(m, at) < 0x1_0000_0000
    requires Inv(later) && TimeInv(later) && later.tickMs == 250 && AllPacked(later) && |queues| == 20
    requires tok in later.timers && later.timers[tok] == m'.timers[tok]
    ensures var fired := Drain(later, now / 1_000_000 / 250).1;
            && (now + 250_000_000 <= at ==> tok !in fired)
            && (now / 1_000_000 / 250 >= at / 1_000_000 / 250 && now / 1_000_000 / 250 > m.cur ==>
                  && tok in fired && (forall i :: 0 <= i < |fired| ==> fired[i] in later.timers)
                  && SplitId(task).1 in For<nat>(SplitId(task).0, Parcels(later.timers, fired)))
  {
    var tick := now / 1_000_000 / 250;
    DrainExact(later, tick);
    TicksOfNanos(250, now);
    TicksOfNanos(250, m'.timers[tok].when);
    if now + 250_000_000 <= at {
      assert tick + 1 <= at / 1_000_000 / 250;
    }
    DueIff(later, tok, tick);
    if tick >= at / 1_000_000 / 250 && tick > m.cur {
      FiredIsQueued(later, tok, tick, queues);
    }
  }

  lemma DueIff(m: Model, tok: Token, tick: nat)
    requires Inv(m) && TimeInv(m) && tok in m.timers
    ensures tok in Drain(m, tick).1 <==> Tick(m, m.timers[tok]) <= tick
  {
    DrainExact(m, tick);
  }

  lemma FiredIsQueued(m: Model, tok: Token, tick: nat, queues: seq<seq<nat>>)
    requires Inv(m) && TimeInv(m) && AllPacked(m) && |queues| == MAX_RUNNERS && tok in Due(m, tick)
    ensures var fired := Drain(m, tick).1;
            && (forall i :: 0 <= i < |fired| ==> fired[i] in m.timers)
            && SplitId(m.timers[tok].task).1 in For<nat>(SplitId(m.timers[tok].task).0, Parcels(m.timers, fired))
  {
    var (runner, pos) := SplitId(m.timers[tok].task);
    SplitIsDivision(m.timers[tok].task);
    hide SplitId, FiberId;
    TimerDispatch(m, tick, queues, runner, pos);
    assert tok in WithTask(m.timers, Due(m, tick), FiberId(runner, pos));
  }

  lemma ReservedArms(m: Model, tok: Token, at: nat, task: nat)
    requires Inv(m) && tok !in m.timers && tok !in m.reserved && AllPacked(m) && Packed(task, MAX_RUNNERS)
    ensures Inv(Reserve(m, tok)) && AllPacked(Reserve(m, tok)) && AllPacked(Arm(Reserve(m, tok), tok, at, task))
    ensures TimerSet(m, tok, at, task, Arm(Reserve(m, tok), tok, at, task))
  {
    ReserveKeepsInv(m, tok);
    ArmTimers(Reserve(m, tok), tok, at, task);
    ArmInTime(m, tok, at, task);
    var r := Reserve(m, tok);
    ArmedTickExactIff(r, tok, at, task);
    TicksOfNanos(m.tickMs, Arm(r, tok, at, task).timers[tok].when);
  }

  lemma RemoveTimers(m: Model, tok: Token)
    requires Inv(m) && AllPacked(m)
    ensures AllPacked(Remove(m, tok))
  {
  }

  lemma ArmInTime(m: Model, tok: Token, at: nat, task: nat)
    requires Inv(m) && tok !in m.timers && Inv(Reserve(m, tok))
    ensures Inv(Arm(Reserve(m, tok), tok, at, task))
    ensures TimeInv(m) && EffectiveTick(Reserve(m, tok), at) < TWO_32 ==> TimeInv(Arm(Reserve(m, tok), tok, at, task))
  {
    ArmKeepsInv(Reserve(m, tok), tok, at, task);
    if TimeInv(m) && EffectiveTick(Reserve(m, tok), at) < TWO_32 {
      assert TimeInv(Reserve(m, tok));
      ArmKeepsTimeInv(Reserve(m, tok), tok, at, task);
    }
  }

  lemma ArmTimers(m: Model, tok: Token, at: nat, task: nat)
    requires Inv(m) && AllPacked(m) && Packed(task, MAX_RUNNERS)
    ensures AllPacked(Arm(m, tok, at, task))
  {
  }

  lemma DispatchOneMore(queues: seq<seq<nat>>, timers: map<Token, Timer>, fired: seq<Token>, tok: Token)
    requires (forall i :: 0 <= i < |fired| ==> fired[i] in timers) && tok in timers
    requires Addressed(Parcels(timers, fired), |queues|) && SplitId(timers[tok].task).0 < |queues|
    ensures Addressed(Parcels(timers, fired + [tok]), |queues|)
    ensures var before := Dispatch<nat>(queues, Parcels(timers, fired));
            var (runner, pos) := SplitId(timers[tok].task);
            Dispatch<nat>(queues, Parcels(timers, fired + [tok])) == before[runner := before[runner] + [pos]]
  {
    assert Parcels(timers, fired + [tok]) == Parcels(timers, fired) + [SplitId(timers[tok].task)];
    hide Parcels, SplitId, Dispatch;
    DispatchSnoc(queues, Parcels(timers, fired), SplitId(timers[tok].task));
  }

  lemma DispatchSnoc<T>(queues: seq<seq<T>>, parcels: seq<(nat, T)>, x: (nat, T))
    requires Addressed(parcels, |queues|) && x.0 < |queues|
    ensures Addressed(parcels + [x], |queues|)
    ensures var before := Dispatch(queues, parcels);
            Dispatch(queues, parcels + [x]) == before[x.0 := before[x.0] + [x.1]]
  {
    assert (parcels + [x])[..|parcels|] == parcels;
  }
}
