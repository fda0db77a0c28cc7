// What the timer wheel promises: a poll fires one due timeout or shows that none is due, a drain
// fires exactly the due ones and in what order, how late or early a timeout can be, and how long
// it is safe to sleep.
module WheelTheorems {
  import opened Wrappers
  import opened Sequences
  import opened Bits
  import opened WheelSpec

  // ---------- modular slots ----------

  lemma SameSlotWithinOneTurn(a: nat, b: nat, n: nat)
    requires n > 0 && a <= b < a + n && a % n == b % n
    ensures a == b
  {
    var k := b / n - a / n;
    assert b - a == k * n by {
      assert a == (a / n) * n + a % n;
      assert b == (b / n) * n + b % n;
      assert k * n == (b / n) * n - (a / n) * n;
    }
    MultipleIsFar(k, n);
  }

  // ---------- keeping time ----------

  // Arming is exact unless the 32-bit narrowing of the tick bites, and exactly then it is not.
  lemma ArmedTickExactIff(m: Model, tok: Token, at: nat, task: nat)
    requires Inv(m) && tok !in m.timers
    ensures Tick(m, Arm(m, tok, at, task).timers[tok]) == EffectiveTick(m, at) <==> EffectiveTick(m, at) < TWO_32
  {
    TicksOfTickStart(m.tickMs, EffectiveTick(m, at));
  }

  lemma ArmKeepsTimeInv(m: Model, tok: Token, at: nat, task: nat)
    requires Inv(m) && TimeInv(m) && tok !in m.timers && EffectiveTick(m, at) < TWO_32
    ensures Inv(Arm(m, tok, at, task)) && TimeInv(Arm(m, tok, at, task))
  {
    ArmKeepsInv(m, tok, at, task);
    ArmedTickExactIff(m, tok, at, task);
  }

  lemma RemoveKeepsTimeInv(m: Model, tok: Token)
    requires Inv(m) && TimeInv(m)
    ensures Inv(Remove(m, tok)) && TimeInv(Remove(m, tok))
  {
    RemoveKeepsInv(m, tok);
    LeftIsArmed(m);
    WithoutElements(m.left, tok);
  }

  lemma AdvanceKeepsTimeInv(m: Model)
    requires Inv(m) && TimeInv(m) && m.left == []
    ensures Inv(Advance(m)) && TimeInv(Advance(m))
  {
    AdvanceKeepsInv(m);
  }

  lemma SkipKeepsTimeInv(m: Model, now: nat)
    requires Inv(m) && TimeInv(m) && m.left != [] && m.cur <= now
    requires m.left[0] in m.timers && Tick(m, m.timers[m.left[0]]) > now
    ensures Inv(Skip(m)) && TimeInv(Skip(m))
  {
    SkipKeepsInv(m);
    forall t | t in m.left && t != m.left[0] ensures t in m.left[1..] {
      var k :| 0 <= k < |m.left| && m.left[k] == t;
      assert m.left[1..][k - 1] == t;
    }
  }

  lemma FireKeepsTimeInv(m: Model)
    requires Inv(m) && TimeInv(m) && m.left != []
    ensures Inv(Fire(m)) && TimeInv(Fire(m))
  {
    FireKeepsInv(m);
    ClearKeepsInv(m);
    RemoveKeepsTimeInv(ClearAtHead(m), m.left[0]);
  }

  // ---------- one poll ----------

  // What a poll takes out, read off the slot lists: nothing, or just the token it returns.
  lemma {:induction false} PollTakesOnlyTheFired(m: Model, now: nat)
    requires Inv(m)
    ensures var (m', r) := Poll(m, now);
            && m'.reserved == m.reserved
            && (r.None? ==> m'.lists == m.lists && m'.timers == m.timers)
            && (r.Some? ==> && r.value in m.timers && Tick(m, m.timers[r.value]) <= now
                            && m'.lists == Remove(m, r.value).lists
                            && m'.timers == m.timers - {r.value})
    decreases if m.cur <= now then now + 1 - m.cur else 0, |m.left|
  {
    if m.cur <= now {
      if m.left == [] {
        AdvanceKeepsInv(m);
        PollTakesOnlyTheFired(Advance(m), now);
      } else {
        LeftIsArmed(m);
        if Tick(m, m.timers[m.left[0]]) > now {
          SkipKeepsInv(m);
          PollTakesOnlyTheFired(Skip(m), now);
        } else {
          assert Poll(m, now) == (Fire(m), Some(m.left[0]));
          ClearKeepsInv(m);
        }
      }
    }
  }

  // A poll keeps time, and returns nothing only when every remaining timeout is in the future.
  lemma {:induction false} PollKeepsTime(m: Model, now: nat)
    requires Inv(m) && TimeInv(m)
    ensures var (m', r) := Poll(m, now);
            && TimeInv(m')
            && (r.None? ==> && m'.cur == (if m.cur > now then m.cur else now + 1)
                            && forall t :: t in m'.timers ==> Tick(m', m'.timers[t]) > now)
            && (r.Some? ==> m.cur <= m'.cur <= now)
    decreases if m.cur <= now then now + 1 - m.cur else 0, |m.left|
  {
    if m.cur <= now {
      if m.left == [] {
        AdvanceKeepsTimeInv(m);
        PollKeepsTime(Advance(m), now);
      } else {
        LeftIsArmed(m);
        if Tick(m, m.timers[m.left[0]]) > now {
          SkipKeepsTimeInv(m, now);
          PollKeepsTime(Skip(m), now);
        } else {
          FireKeepsTimeInv(m);
        }
      }
    }
  }

  // Main result for one poll.
  lemma PollCorrect(m: Model, now: nat)
    requires Inv(m) && TimeInv(m)
    ensures var (m', r) := Poll(m, now);
            && Inv(m') && TimeInv(m') && m'.reserved == m.reserved
            && (r.Some? <==> exists t :: t in m.timers && Tick(m, m.timers[t]) <= now)
            && (r.Some? ==> && r.value in m.timers && Tick(m, m.timers[r.value]) <= now
                            && m'.timers == m.timers - {r.value})
            && (r.None? ==> m'.timers == m.timers)
  {
    PollTakesOnlyTheFired(m, now);
    PollKeepsTime(m, now);
  }

  // ---------- draining ----------

  // Polling at one instant until nothing is returned: the wheel afterwards and what fired, in order.
  function Drain(m: Model, now: nat): (r: (Model, seq<Token>))
    requires Inv(m)
    ensures Inv(r.0) && r.0.tickMs == m.tickMs && |r.0.lists| == |m.lists|
    decreases |m.timers|
  {
    var (m', tok) := Poll(m, now);
    PollTakesOnlyTheFired(m, now);
    if tok.None? then (m', [])
    else
      assert |m'.timers| == |m.timers| - 1 by { SmallerMap(m.timers, tok.value); }
      var (m'', fired) := Drain(m', now);
      (m'', [tok.value] + fired)
  }

  lemma SmallerMap<K, V>(m: map<K, V>, k: K)
    requires k in m
    ensures |m - {k}| == |m| - 1
  {
    assert m.Keys == (m - {k}).Keys + {k};
    assert |m.Keys| == |(m - {k}).Keys| + 1;
  }

  function Due(m: Model, now: nat): set<Token>
    requires m.tickMs > 0
  {
    set t | t in m.timers && Tick(m, m.timers[t]) <= now
  }

  // m' is m with exactly the due timeouts gone, and `fired` lists those without repetition.
  ghost predicate DrainedExactly(m: Model, m': Model, fired: seq<Token>, now: nat)
    requires m.tickMs > 0
  {
    && m'.reserved == m.reserved
    && m'.timers == m.timers - Due(m, now)
    && NoDup(fired)
    && (forall t :: t in fired <==> t in Due(m, now))
  }

  // A drain fires each due timeout exactly once and no other, even after a long jump of the clock.
  lemma {:induction false} DrainExact(m: Model, now: nat)
    requires Inv(m) && TimeInv(m)
    ensures TimeInv(Drain(m, now).0)
    ensures DrainedExactly(m, Drain(m, now).0, Drain(m, now).1, now)
    decreases |m.timers|
  {
    PollCorrect(m, now);
    DrainUnfolds(m, now);
    var (m1, tok) := Poll(m, now);
    if tok.Some? {
      SmallerMap(m.timers, tok.value);
      DrainExact(m1, now);
      DrainOneMore(m, m1, tok.value, Drain(m1, now).0, Drain(m1, now).1, now);
    } else {
      NoneDue(m, now);
    }
  }

  lemma DrainUnfolds(m: Model, now: nat)
    requires Inv(m)
    ensures var (m1, tok) := Poll(m, now);
            Drain(m, now) == if tok.None? then (m1, []) else (Drain(m1, now).0, [tok.value] + Drain(m1, now).1)
  {
  }

  lemma NoneDue(m: Model, now: nat)
    requires Inv(m) && TimeInv(m) && Poll(m, now).1.None?
    ensures DrainedExactly(m, Poll(m, now).0, [], now)
  {
    PollCorrect(m, now);
    assert Due(m, now) == {};
  }

  lemma DrainOneMore(m: Model, m1: Model, tok: Token, m': Model, fired: seq<Token>, now: nat)
    requires m.tickMs > 0 && m1.tickMs == m.tickMs && m1.reserved == m.reserved
    requires tok in Due(m, now) && m1.timers == m.timers - {tok}
    requires DrainedExactly(m1, m', fired, now)
    ensures DrainedExactly(m, m', [tok] + fired, now)
  {
    assert Due(m1, now) == Due(m, now) - {tok};
    ConsNoDup(tok, fired);
  }

  // ---------- firing order ----------

  function OfTick(m: Model, s: seq<Token>, tick: nat): seq<Token>
    requires m.tickMs > 0 && forall t :: t in s ==> t in m.timers
  {
    if s == [] then []
    else (if Tick(m, m.timers[s[0]]) == tick then [s[0]] else []) + OfTick(m, s[1..], tick)
  }

  function LaterTicks(m: Model, tick: nat, now: nat): seq<Token>
    requires Inv(m)
    decreases now + 1 - tick
  {
    if tick > now then [] else OfTick(m, m.lists[tick % |m.lists|], tick) + LaterTicks(m, tick + 1, now)
  }

  // The due timeouts tick by tick, and within a tick in list order.
  function InOrder(m: Model, now: nat): seq<Token>
    requires Inv(m)
  {
    LeftIsArmed(m);
    if m.cur > now then [] else OfTick(m, m.left, m.cur) + LaterTicks(m, m.cur + 1, now)
  }

  lemma {:induction false} OfTickIgnoresOthers(m: Model, m': Model, s: seq<Token>, tick: nat)
    requires m.tickMs > 0 && m'.tickMs == m.tickMs
    requires forall t :: t in s ==> t in m.timers && t in m'.timers && m.timers[t] == m'.timers[t]
    ensures OfTick(m, s, tick) == OfTick(m', s, tick)
  {
    if s != [] {
      OfTickIgnoresOthers(m, m', s[1..], tick);
    }
  }

  lemma {:induction false} LaterIgnoresCurrentSlot(m: Model, m': Model, tick: nat, now: nat)
    requires Inv(m) && Inv(m') && m'.tickMs == m.tickMs && |m.lists| == |m'.lists|
    requires m.cur < tick && now < m.cur + |m.lists|
    requires forall i :: 0 <= i < |m.lists| && i != CurSlot(m) ==> m.lists[i] == m'.lists[i]
    requires forall t :: t in m.timers && t in m'.timers ==> m.timers[t] == m'.timers[t]
    ensures LaterTicks(m, tick, now) == LaterTicks(m', tick, now)
    decreases now + 1 - tick
  {
    if tick <= now {
      var i := tick % |m.lists|;
      if i == CurSlot(m) {
        SameSlotWithinOneTurn(m.cur, tick, |m.lists|);
        assert false;
      }
      OfTickIgnoresOthers(m, m', m.lists[i], tick);
      LaterIgnoresCurrentSlot(m, m', tick + 1, now);
    }
  }

  lemma {:induction false} LaterIgnoresCursor(m: Model, m': Model, tick: nat, now: nat)
    requires Inv(m) && Inv(m') && m'.tickMs == m.tickMs && m.lists == m'.lists && m.timers == m'.timers
    ensures LaterTicks(m, tick, now) == LaterTicks(m', tick, now)
    decreases now + 1 - tick
  {
    if tick <= now {
      OfTickIgnoresOthers(m, m', m.lists[tick % |m.lists|], tick);
      LaterIgnoresCursor(m, m', tick + 1, now);
    }
  }

  // Less than one turn of the wheel behind the clock, a drain fires tick by tick, in list order.
  lemma {:induction false} DrainOrder(m: Model, now: nat)
    requires Inv(m) && TimeInv(m) && now < m.cur + |m.lists|
    ensures Drain(m, now).1 == InOrder(m, now)
    decreases if m.cur <= now then now + 1 - m.cur else 0, |m.left|
  {
    if m.cur <= now {
      if m.left == [] {
        OrderAcrossAdvance(m, now);
        DrainOrder(Advance(m), now);
        SamePollSameDrain(m, Advance(m), now);
      } else {
        LeftIsArmed(m);
        if Tick(m, m.timers[m.left[0]]) > now {
          OrderAcrossSkip(m, now);
          DrainOrder(Skip(m), now);
          SamePollSameDrain(m, Skip(m), now);
        } else {
          OrderAcrossFire(m, now);
          DrainOrder(Fire(m), now);
        }
      }
    }
  }

  lemma SamePollSameDrain(m: Model, m': Model, now: nat)
    requires Inv(m) && Inv(m') && Poll(m, now) == Poll(m', now)
    ensures Drain(m, now) == Drain(m', now)
  {
  }

  lemma OrderAcrossAdvance(m: Model, now: nat)
    requires Inv(m) && TimeInv(m) && m.cur <= now && m.left == []
    ensures Inv(Advance(m)) && TimeInv(Advance(m)) && InOrder(m, now) == InOrder(Advance(m), now)
  {
    var a := Advance(m);
    AdvanceKeepsTimeInv(m);
    OrderParts(m, now);
    OrderParts(a, now);
    LaterIgnoresCursor(m, a, m.cur + 2, now);
    OfTickIgnoresOthers(m, a, a.left, m.cur + 1);
    hide Inv, TimeInv, InOrder, Tick;
  }

  lemma OrderParts(m: Model, now: nat)
    requires Inv(m)
    ensures forall t :: t in m.left ==> t in m.timers
    ensures InOrder(m, now) == if m.cur > now then [] else OfTick(m, m.left, m.cur) + LaterTicks(m, m.cur + 1, now)
  {
    LeftIsArmed(m);
  }

  lemma OrderAcrossSkip(m: Model, now: nat)
    requires Inv(m) && TimeInv(m) && m.cur <= now && m.left != []
    requires m.left[0] in m.timers && Tick(m, m.timers[m.left[0]]) > now
    ensures Inv(Skip(m)) && TimeInv(Skip(m)) && InOrder(m, now) == InOrder(Skip(m), now)
  {
    SkipShape(m);
    SkipKeepsTimeInv(m, now);
    hide Inv, TimeInv, Skip, OfTick, LaterTicks, InOrder, Tick;
    var s := Skip(m);
    LaterIgnoresCursor(m, s, m.cur + 1, now);
    OfTickAcross(m, s, now);
    SameParts(m, s, [], now);
    NothingBefore(InOrder(s, now));
  }

  // The order after a move that takes the timeouts in `head` from the current tick.
  lemma SameParts(m: Model, m': Model, head: seq<Token>, now: nat)
    requires Inv(m) && Inv(m') && m.cur <= now && m'.cur == m.cur
    requires (forall t :: t in m.left ==> t in m.timers) && (forall t :: t in m'.left ==> t in m'.timers)
    requires OfTick(m, m.left, m.cur) == head + OfTick(m', m'.left, m'.cur)
    requires LaterTicks(m, m.cur + 1, now) == LaterTicks(m', m'.cur + 1, now)
    ensures InOrder(m, now) == head + InOrder(m', now)
  {
    Regroup(head, OfTick(m', m'.left, m'.cur), LaterTicks(m', m'.cur + 1, now));
  }

  lemma SkipShape(m: Model)
    requires Inv(m) && m.left != []
    ensures var s := Skip(m);
            && Inv(s) && s.tickMs == m.tickMs && s.lists == m.lists && s.timers == m.timers
            && s.cur == m.cur && s.left == m.left[1..]
  {
    SkipKeepsInv(m);
  }

  lemma OrderAcrossFire(m: Model, now: nat)
    requires Inv(m) && TimeInv(m) && m.cur <= now < m.cur + |m.lists| && m.left != []
    requires m.left[0] in m.timers && Tick(m, m.timers[m.left[0]]) <= now
    ensures Inv(Fire(m)) && TimeInv(Fire(m)) && Fire(m).cur == m.cur && Fire(m).left == m.left[1..]
    ensures InOrder(m, now) == [m.left[0]] + InOrder(Fire(m), now)
  {
    var f := Fire(m);
    hide Inv, TimeInv, Fire, OfTick, LaterTicks, InOrder, Tick, CurSlot;
    FireShape(m);
    LaterIgnoresCurrentSlot(m, f, m.cur + 1, now);
    OfTickAcross(m, f, now);
    SameParts(m, f, [m.left[0]], now);
  }

  // The current tick's share of the order, as the cursor moves past one timeout.
  lemma OfTickAcross(m: Model, m': Model, now: nat)
    requires Inv(m) && TimeInv(m) && Inv(m') && m.left != [] && m.cur <= now
    requires m'.tickMs == m.tickMs && m'.left == m.left[1..] && m.left[0] in m.timers
    requires Tick(m, m.timers[m.left[0]]) <= now ==> now < m.cur + |m.lists|
    requires forall t :: t in m'.timers ==> t in m.timers && m.timers[t] == m'.timers[t]
    ensures (forall t :: t in m.left ==> t in m.timers) && (forall t :: t in m'.left ==> t in m'.timers)
    ensures OfTick(m, m.left, m.cur) ==
            (if Tick(m, m.timers[m.left[0]]) <= now then [m.left[0]] else []) + OfTick(m', m'.left, m.cur)
  {
    LeftIsArmed(m);
    LeftIsArmed(m');
    OfTickIgnoresOthers(m, m', m'.left, m.cur);
    var tick := Tick(m, m.timers[m.left[0]]);
    if tick <= now {
      SameSlotWithinOneTurn(m.cur, tick, |m.lists|);
    }
  }

  lemma FireShape(m: Model)
    requires Inv(m) && TimeInv(m) && m.left != []
    ensures var f := Fire(m);
            && Inv(f) && TimeInv(f) && f.cur == m.cur && f.left == m.left[1..] && f.tickMs == m.tickMs
            && |f.lists| == |m.lists|
            && (forall i :: 0 <= i < |m.lists| && i != CurSlot(m) ==> f.lists[i] == m.lists[i])
            && f.timers == m.timers - {m.left[0]}
  {
    FireKeepsTimeInv(m);
    ClearKeepsInv(m);
    LeftIsArmed(m);
  }

  // Arming order, recorded outside the wheel: each list has its latest armed timeout first.
  ghost predicate LatestFirst(m: Model, serial: map<Token, nat>)
    requires Inv(m)
  {
    forall i :: 0 <= i < |m.lists| ==> Descending(m.lists[i], serial)
  }

  lemma ArmKeepsLatestFirst(m: Model, serial: map<Token, nat>, tok: Token, at: nat, task: nat, stamp: nat)
    requires Inv(m) && LatestFirst(m, serial) && tok !in m.timers
    requires forall t :: t in m.timers ==> t in serial && serial[t] < stamp
    ensures Inv(Arm(m, tok, at, task)) && LatestFirst(Arm(m, tok, at, task), serial[tok := stamp])
  {
    ArmKeepsInv(m, tok, at, task);
    DescendingCons(tok, m.lists[EffectiveTick(m, at) % |m.lists|], serial, stamp);
    forall i | 0 <= i < |m.lists| ensures Descending(m.lists[i], serial[tok := stamp]) {
      DescendingIgnores(m.lists[i], serial, tok, stamp);
    }
  }

  lemma DescendingIgnores(s: seq<Token>, serial: map<Token, nat>, tok: Token, stamp: nat)
    requires Descending(s, serial) && tok !in s
    ensures Descending(s, serial[tok := stamp])
  {
  }

  lemma DescendingCons(tok: Token, s: seq<Token>, serial: map<Token, nat>, stamp: nat)
    requires Descending(s, serial) && tok !in s && forall t :: t in s ==> serial[t] < stamp
    ensures Descending([tok] + s, serial[tok := stamp])
  {
    DescendingIgnores(s, serial, tok, stamp);
  }

  lemma RemoveKeepsLatestFirst(m: Model, serial: map<Token, nat>, tok: Token)
    requires Inv(m) && LatestFirst(m, serial)
    ensures Inv(Remove(m, tok)) && LatestFirst(Remove(m, tok), serial)
  {
    RemoveKeepsInv(m, tok);
    if tok in m.timers {
      DescendingWithout(m.lists[m.timers[tok].slot], serial, tok);
    }
  }

  ghost predicate Descending(s: seq<Token>, serial: map<Token, nat>) {
    && (forall t :: t in s ==> t in serial)
    && forall j, k :: 0 <= j < k < |s| ==> serial[s[j]] > serial[s[k]]
  }

  lemma DescendingWithout(s: seq<Token>, serial: map<Token, nat>, tok: Token)
    requires NoDup(s) && Descending(s, serial)
    ensures Descending(Without(s, tok), serial)
  {
    hide Descending;
    if tok in s {
      var k: nat :| k < |s| && s[k] == tok;
      WithoutAt(s, k);
      DescendingCut(s, serial, k);
    } else {
      WithoutAbsent(s, tok);
    }
  }

  lemma DescendingCut(s: seq<Token>, serial: map<Token, nat>, k: nat)
    requires Descending(s, serial) && k < |s|
    ensures Descending(s[..k] + s[k + 1..], serial)
  {
    var cut := s[..k] + s[k + 1..];
    forall i, j | 0 <= i < j < |cut| ensures serial[cut[i]] > serial[cut[j]] {
      assert cut[i] == s[if i < k then i else i + 1] && cut[j] == s[if j < k then j else j + 1];
    }
  }

  lemma DescendingParts(a: seq<Token>, b: seq<Token>, serial: map<Token, nat>)
    requires Descending(a + b, serial)
    ensures Descending(b, serial)
  {
    assert forall j :: 0 <= j < |b| ==> b[j] == (a + b)[|a| + j];
  }

  lemma PollKeepsLatestFirst(m: Model, serial: map<Token, nat>, now: nat)
    requires Inv(m) && LatestFirst(m, serial)
    ensures LatestFirst(Poll(m, now).0, serial)
  {
    PollTakesOnlyTheFired(m, now);
    var r := Poll(m, now).1;
    if r.Some? {
      RemoveKeepsLatestFirst(m, serial, r.value);
    }
  }

  ghost predicate Precedes(m: Model, serial: map<Token, nat>, a: Token, b: Token)
    requires m.tickMs > 0 && a in m.timers && b in m.timers && a in serial && b in serial
  {
    var ta, tb := Tick(m, m.timers[a]), Tick(m, m.timers[b]);
    ta < tb || (ta == tb && serial[a] > serial[b])
  }

  // Every element comes before every later one; all of them have ticks in the given range.
  ghost predicate Ordered(m: Model, serial: map<Token, nat>, s: seq<Token>, lo: nat, hi: nat)
    requires m.tickMs > 0
  {
    && (forall t :: t in s ==> t in m.timers && t in serial && lo <= Tick(m, m.timers[t]) <= hi)
    && forall i, j :: 0 <= i < j < |s| ==> Precedes(m, serial, s[i], s[j])
  }

  lemma {:induction false} OfTickOrdered(m: Model, serial: map<Token, nat>, s: seq<Token>, tick: nat)
    requires m.tickMs > 0 && (forall t :: t in s ==> t in m.timers) && Descending(s, serial)
    ensures Ordered(m, serial, OfTick(m, s, tick), tick, tick)
    ensures forall t :: t in OfTick(m, s, tick) ==> t in s
  {
    if s != [] {
      assert s == [s[0]] + s[1..];
      DescendingParts([s[0]], s[1..], serial);
      OfTickOrdered(m, serial, s[1..], tick);
      var rest := OfTick(m, s[1..], tick);
      forall t | t in rest ensures serial[s[0]] > serial[t] {
        var k :| 0 <= k < |s[1..]| && s[1..][k] == t;
        assert s[k + 1] == t;
      }
      if Tick(m, m.timers[s[0]]) == tick {
        OrderedCons(m, serial, s[0], rest, tick);
      } else {
        assert [] + rest == rest;
      }
      hide Ordered, Tick, Descending;
    }
  }

  lemma OrderedCons(m: Model, serial: map<Token, nat>, tok: Token, rest: seq<Token>, tick: nat)
    requires m.tickMs > 0 && Ordered(m, serial, rest, tick, tick)
    requires tok in m.timers && tok in serial && Tick(m, m.timers[tok]) == tick
    requires forall t :: t in rest ==> serial[tok] > serial[t]
    ensures Ordered(m, serial, [tok] + rest, tick, tick)
  {
    hide Tick;
  }

  lemma OrderedConcat(m: Model, serial: map<Token, nat>, a: seq<Token>, b: seq<Token>, tick: nat, hi: nat)
    requires m.tickMs > 0 && Ordered(m, serial, a, tick, tick) && Ordered(m, serial, b, tick + 1, hi)
    ensures Ordered(m, serial, a + b, tick, if hi < tick then tick else hi)
  {
  }

  lemma {:induction false} LaterOrdered(m: Model, serial: map<Token, nat>, tick: nat, now: nat)
    requires Inv(m) && LatestFirst(m, serial)
    ensures Ordered(m, serial, LaterTicks(m, tick, now), tick, now)
    decreases now + 1 - tick
  {
    if tick <= now {
      OfTickOrdered(m, serial, m.lists[tick % |m.lists|], tick);
      LaterOrdered(m, serial, tick + 1, now);
      OrderedConcat(m, serial, OfTick(m, m.lists[tick % |m.lists|], tick), LaterTicks(m, tick + 1, now), tick, now);
    }
  }

  lemma CurrentOrdered(m: Model, serial: map<Token, nat>)
    requires Inv(m) && LatestFirst(m, serial)
    ensures forall t :: t in m.left ==> t in m.timers
    ensures Ordered(m, serial, OfTick(m, m.left, m.cur), m.cur, m.cur)
  {
    LeftIsArmed(m);
    DescendingParts(m.passed, m.left, serial);
    OfTickOrdered(m, serial, m.left, m.cur);
  }

  lemma InOrderOrdered(m: Model, serial: map<Token, nat>, now: nat)
    requires Inv(m) && LatestFirst(m, serial) && m.cur <= now
    ensures Ordered(m, serial, InOrder(m, now), m.cur, now)
  {
    CurrentOrdered(m, serial);
    OrderParts(m, now);
    hide Ordered, OfTick, LaterTicks, InOrder, LatestFirst, Tick;
    LaterOrdered(m, serial, m.cur + 1, now);
    OrderedConcat(m, serial, OfTick(m, m.left, m.cur), LaterTicks(m, m.cur + 1, now), m.cur, now);
  }

  // Firing order: by tick, and within one tick the last armed first.
  lemma FiringOrder(m: Model, serial: map<Token, nat>, now: nat)
    requires Inv(m) && TimeInv(m) && LatestFirst(m, serial) && now < m.cur + |m.lists|
    ensures Ordered(m, serial, Drain(m, now).1, m.cur, now)
  {
    DrainOrder(m, now);
    if m.cur <= now {
      InOrderOrdered(m, serial, now);
    }
  }

  // One more tick is allowed when nothing is left to visit in the current slot.
  lemma FiringOrderIdle(m: Model, serial: map<Token, nat>, now: nat)
    requires Inv(m) && TimeInv(m) && LatestFirst(m, serial) && m.left == [] && now == m.cur + |m.lists|
    ensures Ordered(m, serial, Drain(m, now).1, m.cur, now)
  {
    var a := Advance(m);
    AdvanceKeepsTimeInv(m);
    assert a.lists == m.lists && a.timers == m.timers && a.tickMs == m.tickMs && a.cur == m.cur + 1;
    assert Poll(m, now) == Poll(a, now);
    SamePollSameDrain(m, a, now);
    hide Inv, TimeInv, Advance, Poll, Drain;
    FiringOrder(a, serial, now);
  }

  // ---------- exactly when the order is kept ----------

  // Every wheel with `n` slots at tick `cur`, idle or with timeouts left to visit in its current slot,
  // drains in order.
  ghost predicate AlwaysInOrder(n: nat, cur: nat, idle: bool, now: nat) {
    forall m: Model, serial: map<Token, nat> | Inv(m) && TimeInv(m) && LatestFirst(m, serial) ::
      |m.lists| == n && m.cur == cur && (m.left == [] <==> idle) ==> Ordered(m, serial, Drain(m, now).1, cur, now)
  }

  // A wheel on which a later timeout comes first: token 0, of tick start + n, stands before or in
  // front of token 1, of tick start + 1, or of tick start when there is only one slot. The cursor is
  // at tick `start` with token 0 under it, or idle at the tick before.
  function EarlierTick(n: nat, start: nat): nat {
    if n == 1 then start else start + 1
  }

  function SkewedTimers(n: nat, start: nat): map<Token, Timer>
    requires n > 0
  {
    map[0 := Timer(0, (start + n) * NANOS_PER_MILLI, start % n),
        1 := Timer(0, EarlierTick(n, start) * NANOS_PER_MILLI, EarlierTick(n, start) % n)]
  }

  function SkewedLists(n: nat, start: nat): (lists: seq<seq<Token>>)
    requires n > 0
    ensures |lists| == n && lists[start % n] == if n == 1 then [0, 1] else [0]
    ensures n > 1 ==> start % n != (start + 1) % n && lists[(start + 1) % n] == [1]
    ensures forall i :: 0 <= i < n && i != start % n && i != (start + 1) % n ==> lists[i] == []
  {
    if n == 1 then [[0, 1]]
    else
      NeighboursDiffer(start, n);
      Repeat([], n)[start % n := [0]][(start + 1) % n := [1]]
  }

  lemma NeighboursDiffer(a: nat, n: nat)
    requires n > 1
    ensures a % n != (a + 1) % n
  {
    if a % n == (a + 1) % n {
      SameSlotWithinOneTurn(a, a + 1, n);
    }
  }

  function Skewed(n: nat, start: nat, idle: bool): Model
    requires n > 0 && (idle ==> start > 0)
  {
    var lists := SkewedLists(n, start);
    var cur := if idle then start - 1 else start;
    Model(1, lists, Repeat(None, n), SkewedTimers(n, start), {}, cur,
          if idle then lists[cur % n] else [], if idle then [] else lists[cur % n])
  }

  lemma TickOfMillis(tick: nat)
    ensures TimeToTicks(1, tick * NANOS_PER_MILLI) == tick
  {
    TicksOfNanos(1, tick * NANOS_PER_MILLI);
  }

  lemma TurnLater(a: nat, n: nat)
    requires n > 0
    ensures (a + n) % n == a % n
  {
    RemainderUnique(a + n, n, a / n + 1, a % n);
  }

  lemma SkewedIsSound(n: nat, start: nat, idle: bool)
    requires n > 0 && (idle ==> start > 0)
    ensures var m := Skewed(n, start, idle);
            && Inv(m) && TimeInv(m) && LatestFirst(m, map[0 := 1, 1 := 0])
            && Tick(m, m.timers[0]) == start + n && Tick(m, m.timers[1]) == EarlierTick(n, start)
  {
    hide Inv, TimeInv, Tick, Skewed, SkewedLists, Descending;
    var m := Skewed(n, start, idle);
    SkewedInv(n, start, idle);
    SkewedDescends(n, start);
    SkewedTicks(n, start, idle);
    TwoInTime(m);
  }

  lemma SkewedTicks(n: nat, start: nat, idle: bool)
    requires n > 0 && (idle ==> start > 0)
    ensures var m := Skewed(n, start, idle);
            && m.tickMs == 1 && m.lists == SkewedLists(n, start) && m.timers.Keys == {0, 1}
            && m.reserved == {} && |m.nexts| == n
            && m.cur == (if idle then start - 1 else start)
            && Tick(m, m.timers[0]) == start + n && Tick(m, m.timers[1]) == EarlierTick(n, start)
            && m.timers[0].slot == (start + n) % n && m.timers[1].slot == EarlierTick(n, start) % n
            && (!idle && n == 1 ==> 1 in m.left) && (m.left == [] <==> idle)
  {
    TickOfMillis(start + n);
    TickOfMillis(EarlierTick(n, start));
    TurnLater(start, n);
    hide TimeToTicks;
  }

  lemma TwoInTime(m: Model)
    requires Inv(m) && m.timers.Keys == {0, 1}
    requires forall t: Token :: t == 0 || t == 1 ==>
      && m.timers[t].slot == Tick(m, m.timers[t]) % |m.lists|
      && Tick(m, m.timers[t]) >= m.cur && (Tick(m, m.timers[t]) == m.cur ==> t in m.left)
    ensures TimeInv(m)
  {
    hide Inv, Tick;
  }

  lemma SkewedDescends(n: nat, start: nat)
    requires n > 0
    ensures forall i :: 0 <= i < n ==> Descending(SkewedLists(n, start)[i], map[0 := 1, 1 := 0])
  {
    var lists := SkewedLists(n, start);
    forall i | 0 <= i < n ensures Descending(lists[i], map[0 := 1, 1 := 0]) {
      assert lists[i] == [0, 1] || lists[i] == [0] || lists[i] == [1] || lists[i] == [];
    }
  }

  lemma SkewedInv(n: nat, start: nat, idle: bool)
    requires n > 0 && (idle ==> start > 0)
    ensures Inv(Skewed(n, start, idle))
  {
    var lists := SkewedLists(n, start);
    var m := Skewed(n, start, idle);
    assert n == 1 ==> start % n == 0;
    assert m.lists[CurSlot(m)] == m.passed + m.left;
    hide SkewedLists, Skewed;
    SkewedTicks(n, start, idle);
    TurnLater(start, n);
    TwoPartition(m, start % n, EarlierTick(n, start) % n);
  }

  lemma TwoPartition(m: Model, a: nat, b: nat)
    requires m.tickMs > 0 && 0 < |m.lists| == |m.nexts| && m.timers.Keys == {0, 1} && m.reserved == {}
    requires a < |m.lists| && b < |m.lists| && m.timers[0].slot == a && m.timers[1].slot == b
    requires if a == b then m.lists[a] == [0, 1] else m.lists[a] == [0] && m.lists[b] == [1]
    requires forall i :: 0 <= i < |m.lists| && i != a && i != b ==> m.lists[i] == []
    requires m.lists[CurSlot(m)] == m.passed + m.left
    ensures Inv(m)
  {
    hide CurSlot;
    forall i, t | 0 <= i < |m.lists| && t in m.lists[i] ensures t in m.timers && m.timers[t].slot == i {
      assert i == a || i == b;
    }
  }

  lemma SkewedFiresLaterFirst(n: nat, start: nat, idle: bool, now: nat)
    requires n > 0 && (idle ==> start > 0) && start + n <= now
    ensures var m := Skewed(n, start, idle);
            && Inv(m) && Poll(m, now).1 == Some(0)
  {
    SkewedIsSound(n, start, idle);
    var m := Skewed(n, start, idle);
    assert m.lists[start % n][0] == 0;
    hide Inv, Poll, TimeToTicks, Tick;
    if idle {
      HeadOfNextSlotFires(m, now);
    } else {
      FiresUnderCursor(m, now);
    }
  }

  lemma SkewedIsOutOfOrder(n: nat, start: nat, idle: bool, now: nat)
    requires n > 0 && (idle ==> start > 0) && start + n <= now
    ensures var m := Skewed(n, start, idle);
            Inv(m) && !Ordered(m, map[0 := 1, 1 := 0], Drain(m, now).1, m.cur, now)
  {
    var m := Skewed(n, start, idle);
    var serial: map<Token, nat> := map[0 := 1, 1 := 0];
    SkewedIsSound(n, start, idle);
    SkewedFiresLaterFirst(n, start, idle, now);
    assert 1 in m.timers;
    DrainUnfolds(m, now);
    DrainExact(m, now);
    hide Inv, TimeInv, Poll, Drain, Tick, Skewed, Ordered;
    assert 1 in Due(m, now);
    FirstIsLater(m, serial, Drain(m, now).1, now);
  }

  lemma FirstIsLater(m: Model, serial: map<Token, nat>, fired: seq<Token>, now: nat)
    requires m.tickMs > 0 && fired != [] && fired[0] == 0 && 1 in fired
    requires 0 in m.timers && 1 in m.timers && 0 in serial && 1 in serial && Tick(m, m.timers[1]) < Tick(m, m.timers[0])
    ensures !Ordered(m, serial, fired, m.cur, now)
  {
    var j :| 0 <= j < |fired| && fired[j] == 1;
    assert !Precedes(m, serial, fired[0], fired[j]);
  }

  // Main result on order: a drain is sure to fire by tick, and within a tick the last armed first,
  // exactly when the clock is less than a turn ahead of the cursor, or a turn ahead of an idle one.
  lemma FiringOrderIff(n: nat, cur: nat, idle: bool, now: nat)
    requires n > 0
    ensures AlwaysInOrder(n, cur, idle, now) <==> now < cur + n || (idle && now == cur + n)
  {
    if now < cur + n || (idle && now == cur + n) {
      hide Inv, TimeInv, LatestFirst, Ordered, Drain;
      forall m: Model, serial: map<Token, nat> | Inv(m) && TimeInv(m) && LatestFirst(m, serial)
        ensures |m.lists| == n && m.cur == cur && (m.left == [] <==> idle) ==> Ordered(m, serial, Drain(m, now).1, cur, now)
      {
        if |m.lists| == n && m.cur == cur && (m.left == [] <==> idle) {
          if now < cur + n {
            FiringOrder(m, serial, now);
          } else {
            FiringOrderIdle(m, serial, now);
          }
        }
      }
    } else {
      SometimesOutOfOrder(n, cur, idle, now);
    }
  }

  lemma SometimesOutOfOrder(n: nat, cur: nat, idle: bool, now: nat)
    requires n > 0 && now >= (if idle then cur + 1 else cur) + n
    ensures !AlwaysInOrder(n, cur, idle, now)
  {
    hide Inv, TimeInv, Ordered, Drain, Skewed, Tick, LatestFirst, SkewedLists;
    var start := if idle then cur + 1 else cur;
    SkewedIsSound(n, start, idle);
    SkewedIsOutOfOrder(n, start, idle, now);
    var m := Skewed(n, start, idle);
    SkewedTicks(n, start, idle);
    assert LatestFirst(m, map[0 := 1, 1 := 0]);
  }

  // Such a wheel can be armed from an empty one: on a wheel of two slots, a poll at tick 3 returns the
  // timeout of tick 3 while the one of tick 2 is still armed.
  lemma OutOfOrderAfterATurn() returns (m: Model, first: nat, second: nat)
    ensures m == Create(250, 2) && TimeToTicks(250, first) == 2 && TimeToTicks(250, second) == 3
    ensures Inv(m) && Inv(Arm(m, 0, first, 7))
    ensures var both := Arm(Arm(m, 0, first, 7), 1, second, 8);
            && Inv(both) && 0 in both.timers && Tick(both, both.timers[0]) == 2
            && Poll(both, 3).1 == Some(1)
  {
    m, first, second := Create(250, 2), 500 * NANOS_PER_MILLI, 750 * NANOS_PER_MILLI;
    CreateKeepsInv(250, 2);
    TicksOfNanos(250, first);
    TicksOfNanos(250, second);
    hide Inv, Arm, Poll;
    LaterFirst(m, first, second);
  }

  lemma LaterFirst(m: Model, first: nat, second: nat)
    requires Inv(m) && m.cur == 0 && m.left == [] && |m.lists| == 2 && m.timers == map[]
    requires TimeToTicks(m.tickMs, first) == 2 && TimeToTicks(m.tickMs, second) == 3
    ensures Inv(Arm(m, 0, first, 7))
    ensures var both := Arm(Arm(m, 0, first, 7), 1, second, 8);
            && Inv(both) && 0 in both.timers && Tick(both, both.timers[0]) == 2
            && Poll(both, 3).1 == Some(1)
  {
    hide Inv, Arm, Poll, TimeToTicks;
    var one := ArmOnIdleSlot(m, 0, first, 7);
    var both := ArmOnIdleSlot(one, 1, second, 8);
    HeadOfNextSlotFires(both, 3);
  }

  // Arming while the cursor is at the end of its list.
  lemma ArmOnIdleSlot(m: Model, tok: Token, at: nat, task: nat) returns (m': Model)
    requires Inv(m) && m.left == [] && tok !in m.timers
    ensures m' == Arm(m, tok, at, task) && Inv(m') && m'.left == [] && m'.cur == m.cur && m'.tickMs == m.tickMs
    ensures |m'.lists| == |m.lists| && m'.timers.Keys == m.timers.Keys + {tok} && m'.reserved == m.reserved - {tok}
    ensures Tick(m', m'.timers[tok]) == EffectiveTick(m, at) % TWO_32 && forall t :: t in m.timers ==> m'.timers[t] == m.timers[t]
    ensures var slot := EffectiveTick(m, at) % |m.lists|;
            m'.lists[slot] == [tok] + m.lists[slot]
  {
    ArmKeepsInv(m, tok, at, task);
    TicksOfTickStart(m.tickMs, EffectiveTick(m, at));
    m' := Arm(m, tok, at, task);
  }

  lemma HeadOfNextSlotFires(m: Model, now: nat)
    requires Inv(m) && m.left == [] && m.cur < now
    requires var next := m.lists[(m.cur + 1) % |m.lists|];
             next != [] && next[0] in m.timers && Tick(m, m.timers[next[0]]) <= now
    ensures Poll(m, now).1 == Some(m.lists[(m.cur + 1) % |m.lists|][0])
  {
    AdvanceKeepsInv(m);
    var a := Advance(m);
    assert Poll(m, now) == Poll(a, now);
    assert a.left == m.lists[(m.cur + 1) % |m.lists|] && a.timers == m.timers && a.tickMs == m.tickMs && a.cur == m.cur + 1;
    hide Inv, Poll, Advance, Tick;
    FiresUnderCursor(a, now);
  }

  lemma FiresUnderCursor(m: Model, now: nat)
    requires Inv(m) && m.left != [] && m.cur <= now
    requires m.left[0] in m.timers && Tick(m, m.timers[m.left[0]]) <= now
    ensures Poll(m, now).1 == Some(m.left[0])
  {
  }

  // ---------- how early and how late ----------

  // A timeout that fires at `at` does so less than one tick before the instant asked for.
  lemma NeverATickEarly(m: Model, tok: Token, asked: nat, task: nat, at: nat)
    requires Inv(m) && tok !in m.timers && EffectiveTick(m, asked) < TWO_32
    requires Tick(m, Arm(m, tok, asked, task).timers[tok]) <= TimeToTicks(m.tickMs, at)
    ensures asked < at + m.tickMs * NANOS_PER_MILLI
  {
    ArmedTickExactIff(m, tok, asked, task);
    TicksOfNanos(m.tickMs, asked);
    TicksOfNanos(m.tickMs, at);
    NotADivisorBehind(asked / NANOS_PER_MILLI, at / NANOS_PER_MILLI, m.tickMs);
  }

  lemma NotADivisorBehind(a: nat, b: nat, d: nat)
    requires d > 0 && a / d <= b / d
    ensures a < b + d
  {
    var k := b / d - a / d;
    assert k * d == (b / d) * d - (a / d) * d;
    assert k * d >= 0;
    assert a == (a / d) * d + a % d;
    assert b == (b / d) * d + b % d;
  }

  // The first drain at or after the armed tick fires the timeout, if it is still armed then.
  lemma FiresWhenDue(m: Model, tok: Token, asked: nat, task: nat, m': Model, now: nat)
    requires Inv(m) && tok !in m.timers && EffectiveTick(m, asked) < TWO_32
    requires Inv(m') && TimeInv(m') && m'.tickMs == m.tickMs
    requires tok in m'.timers && m'.timers[tok] == Arm(m, tok, asked, task).timers[tok]
    requires now >= TimeToTicks(m.tickMs, asked) && now >= m.cur + 1
    ensures tok in Drain(m', now).1
  {
    ArmedTickExactIff(m, tok, asked, task);
    DrainExact(m', now);
  }

  // Beyond 32 bits of ticks the promise fails: on a one-slot wheel with 250 ms ticks, a timeout
  // asked for tick 2^32, some 34 years ahead, fires at tick 1.
  lemma WrappedTickFiresEarly()
    ensures var m := Create(250, 1);
            && Inv(m) && Inv(Arm(m, 0, 250 * TWO_32 * NANOS_PER_MILLI, 7))
            && EffectiveTick(m, 250 * TWO_32 * NANOS_PER_MILLI) == TWO_32
            && Poll(Arm(m, 0, 250 * TWO_32 * NANOS_PER_MILLI, 7), 1).1 == Some(0)
  {
    var m := Create(250, 1);
    var at := 250 * TWO_32 * NANOS_PER_MILLI;
    CreateKeepsInv(250, 1);
    TicksOfNanos(250, at);
    hide Inv, Arm, Poll;
    var a := ArmOnIdleSlot(m, 0, at, 7);
    HeadOfNextSlotFires(a, 1);
  }

  // ---------- how long to sleep ----------

  // The least of the slot minima.
  function MinNext(nexts: seq<Option<nat>>): Option<nat> {
    if nexts == [] then None
    else
      var rest := MinNext(nexts[..|nexts| - 1]);
      var last := nexts[|nexts| - 1];
      if last.None? then rest
      else if rest.None? || last.value <= rest.value then last
      else rest
  }

  lemma {:induction false} MinNextIsLeast(nexts: seq<Option<nat>>)
    ensures forall i :: 0 <= i < |nexts| && nexts[i].Some? ==>
      MinNext(nexts).Some? && MinNext(nexts).value <= nexts[i].value
    ensures MinNext(nexts).Some? ==> MinNext(nexts) in nexts
  {
    if nexts != [] {
      MinNextIsLeast(nexts[..|nexts| - 1]);
    }
  }

  // Nothing armed can be due before the reported next timeout.
  lemma SleepBound(m: Model)
    requires Inv(m) && FullyCovered(m)
    ensures forall t :: t in m.timers ==> MinNext(m.nexts).Some? && MinNext(m.nexts).value <= m.timers[t].when
  {
    MinNextIsLeast(m.nexts);
  }

  lemma ArmKeepsCover(m: Model, tok: Token, at: nat, task: nat)
    requires Inv(m) && CoverInv(m) && tok !in m.timers
    ensures Inv(Arm(m, tok, at, task)) && CoverInv(Arm(m, tok, at, task))
    ensures FullyCovered(m) ==> FullyCovered(Arm(m, tok, at, task))
  {
    ArmKeepsInv(m, tok, at, task);
  }

  lemma RemoveKeepsCover(m: Model, tok: Token)
    requires Inv(m) && CoverInv(m)
    ensures Inv(Remove(m, tok)) && CoverInv(Remove(m, tok))
    ensures FullyCovered(m) ==> FullyCovered(Remove(m, tok))
  {
    RemoveKeepsInv(m, tok);
    LeftIsArmed(m);
    WithoutElements(m.left, tok);
  }

  lemma AdvanceCovers(m: Model)
    requires Inv(m) && CoverInv(m) && m.left == []
    ensures Inv(Advance(m)) && FullyCovered(Advance(m))
  {
    AdvanceKeepsInv(m);
  }

  lemma ClearKeepsCover(m: Model)
    requires Inv(m) && CoverInv(m)
    ensures Inv(ClearAtHead(m)) && CoverInv(ClearAtHead(m))
  {
    ClearKeepsInv(m);
  }

  lemma SkipKeepsCover(m: Model)
    requires Inv(m) && CoverInv(m) && m.left != []
    ensures Inv(Skip(m)) && CoverInv(Skip(m))
  {
    SkipKeepsInv(m);
    ClearKeepsCover(m);
    LeftIsArmed(m);
    forall t | t in m.left && t != m.left[0] ensures t in m.left[1..] {
      var k :| 0 <= k < |m.left| && m.left[k] == t;
      assert m.left[1..][k - 1] == t;
    }
  }

  lemma {:induction false} PollCovers(m: Model, now: nat)
    requires Inv(m) && CoverInv(m)
    ensures CoverInv(Poll(m, now).0)
    ensures Poll(m, now).1.None? && (m.cur <= now || FullyCovered(m)) ==> FullyCovered(Poll(m, now).0)
    decreases if m.cur <= now then now + 1 - m.cur else 0, |m.left|
  {
    if m.cur <= now {
      if m.left == [] {
        AdvanceCovers(m);
        PollCovers(Advance(m), now);
      } else {
        LeftIsArmed(m);
        if Tick(m, m.timers[m.left[0]]) > now {
          SkipKeepsCover(m);
          PollCovers(Skip(m), now);
        } else {
          ClearKeepsCover(m);
          RemoveKeepsCover(ClearAtHead(m), m.left[0]);
        }
      }
    }
  }
}
