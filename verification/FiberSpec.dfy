// Scheduling: running a fiber until it blocks or returns, and what the main stack does then.
//
// A fiber's own code is not known here. What it does between two switches is given by a burst: the
// calls it makes on the runner and how it gives up control. An oracle supplies a burst for each
// switch into a fiber, so a statement for every oracle is a statement for all fiber functions.
module FiberSpec {
  import opened Wrappers
  import opened Sequences
  import opened FiberTable
  import opened FiberState

  // Calls that do not give up control, unless get_child finds nothing ready.
  datatype Op =
    | Spawn(child: bool, schedule: bool)
    | Resolve(child: bool, armed: bool, timeout: nat, ok: bool)
    | GetChild
    | RefusedListener

  // Ways to give up control. A fiber waiting for its socket may arm a timer.
  datatype Yield = Chunk(value: Resp) | Io(armed: bool) | Join | Return(last: Option<Resp>)

  datatype Burst = Burst(ops: seq<Op>, end: Yield)

  // ---------- the main stack between switches ----------

  // Seen from the main stack, a slot holds no running fiber; a dead fiber has no stack, and is in the
  // free list, or closed and waiting for its parent, or abandoned by a failed lookup.
  ghost predicate SlotQuiet(t: Table, i: nat)
    requires i < |t.fibers|
  {
    var f := t.fibers[i];
    && !f.wait.Running?
    && (f.wait.Dead? ==> !f.t)
    && (f.wait.Dead? && !Vacant(t, i) ==> if f.parent.Some? then f.state.Closed? else f.state.Unstacked? && !f.wtoken)
  }

  ghost predicate QuietBut(t: Table, x: int) {
    forall i: nat :: i < |t.fibers| && i != x ==> SlotQuiet(t, i)
  }

  ghost predicate Quiet(t: Table) {
    QuietBut(t, -1)
  }

  // Fiber `pos` is executing.
  ghost predicate Scene(s: State, pos: nat) {
    Good(s) && QuietBut(s.tab, pos) && pos < |s.tab.fibers| && s.tab.fibers[pos].wait.Running?
  }

  // Fiber `pos` is still the same fiber.
  ghost predicate Kept(s: State, s': State, pos: nat) {
    && pos < |s.tab.fibers| <= |s'.tab.fibers|
    && s'.tab.fibers[pos].birth == s.tab.fibers[pos].birth && s'.tab.fibers[pos].parent == s.tab.fibers[pos].parent
    && s'.tab.away == s.tab.away
  }

  lemma SceneFacts(s: State, pos: nat)
    requires Scene(s, pos)
    ensures SlotOk(s.tab, pos) && s.tab.fibers[pos].state.Stacked? && !Vacant(s.tab, pos)
    ensures forall c :: c in s.tab.fibers[pos].children ==> ChildOk(s.tab, pos, c) && c != pos
    ensures forall j :: 0 <= j < |s.tab.fibers[pos].children| ==> s.tab.fibers[pos].children[j] < |s.tab.fibers|
  {
    assert SlotOk(s.tab, pos);
    forall j | 0 <= j < |s.tab.fibers[pos].children| ensures s.tab.fibers[pos].children[j] < |s.tab.fibers| {
      assert ChildOk(s.tab, pos, s.tab.fibers[pos].children[j]);
    }
    forall c | c in s.tab.fibers[pos].children ensures c != pos {
      assert ChildOk(s.tab, pos, c) && SlotOk(s.tab, c);
    }
  }

  // ---------- get_child ----------

  predicate ChildReady(t: Table, c: nat)
    requires c < |t.fibers|
  {
    t.fibers[c].state.Closed? || t.fibers[c].result.Some?
  }

  function FirstReady(t: Table, cs: seq<nat>, k: nat): (r: nat)
    requires k <= |cs| && forall j :: 0 <= j < |cs| ==> cs[j] < |t.fibers|
    ensures k <= r <= |cs| && (r < |cs| ==> ChildReady(t, cs[r]))
    ensures forall j :: k <= j < r ==> !ChildReady(t, cs[j])
    decreases |cs| - k
  {
    if k == |cs| then k else if ChildReady(t, cs[k]) then k else FirstReady(t, cs, k + 1)
  }

  // Takes the response of the k-th child; a closed child is reaped, another one is scheduled again.
  function TakeChild(s: State, p: nat, k: nat): State
    requires Scene(s, p) && k < |s.tab.fibers[p].children| && ChildOk(s.tab, p, s.tab.fibers[p].children[k])
    requires SlotOk(s.tab, s.tab.fibers[p].children[k])
  {
    var c := s.tab.fibers[p].children[k];
    var s1 := Collect(s, c);
    if s.tab.fibers[c].state.Closed? then s1.(tab := Reap(s1.tab, p, k)) else s1.(toexec := s1.toexec + [c])
  }

  lemma TakeChildScene(s: State, p: nat, k: nat)
    requires Scene(s, p) && k < |s.tab.fibers[p].children|
    ensures ChildOk(s.tab, p, s.tab.fibers[p].children[k]) && SlotOk(s.tab, s.tab.fibers[p].children[k])
    ensures Scene(TakeChild(s, p, k), p) && Kept(s, TakeChild(s, p, k), p)
    ensures var c := s.tab.fibers[p].children[k];
            s.tab.fibers[c].state.Closed? ==> |TakeChild(s, p, k).tab.fibers[p].children| < |s.tab.fibers[p].children|
  {
    SceneFacts(s, p);
    var c := s.tab.fibers[p].children[k];
    assert c in s.tab.fibers[p].children;
    assert SlotOk(s.tab, c) && SlotQuiet(s.tab, c);
    CollectKeepsGood(s, c);
    var s1 := Collect(s, c);
    if s.tab.fibers[c].state.Closed? {
      ReapKeepsGood(s1, p, k);
    } else {
      QueuesDoNotMatter(s1, TakeChild(s, p, k));
    }
    TakeChildQuiet(s, p, k);
  }

  lemma TakeChildQuiet(s: State, p: nat, k: nat)
    requires Scene(s, p) && k < |s.tab.fibers[p].children|
    requires ChildOk(s.tab, p, s.tab.fibers[p].children[k]) && SlotOk(s.tab, s.tab.fibers[p].children[k])
    ensures QuietBut(TakeChild(s, p, k).tab, p)
  {
    var s' := TakeChild(s, p, k);
    forall i: nat | i < |s'.tab.fibers| && i != p ensures SlotQuiet(s'.tab, i) {
      assert SlotQuiet(s.tab, i);
    }
  }

  datatype Iter = Empty | Got(value: Resp) | Block

  // The loop of child_iter up to the point where it returns or has to wait.
  function ChildIter(s: State, p: nat): (r: (State, Iter))
    requires Scene(s, p)
    ensures Scene(r.0, p) && Kept(s, r.0, p)
    decreases |s.tab.fibers[p].children|
  {
    SceneFacts(s, p);
    var cs := s.tab.fibers[p].children;
    if cs == [] then (s, Empty)
    else
      var k := FirstReady(s.tab, cs, 0);
      if k == |cs| then (s, Block)
      else
        TakeChildScene(s, p, k);
        var result := s.tab.fibers[cs[k]].result;
        if result.Some? then (TakeChild(s, p, k), Got(result.value)) else ChildIter(TakeChild(s, p, k), p)
  }

  predicate Sends(t: Table, c: nat, r: Option<Resp>) {
    c < |t.fibers| && t.fibers[c].result == r
  }

  // `v` is the response of the first child in the list that has one.
  ghost predicate FirstSends(t: Table, cs: seq<nat>, v: Resp) {
    exists j: nat :: j < |cs| && Sends(t, cs[j], Some(v)) && forall i: nat :: i < j ==> Sends(t, cs[i], None)
  }

  predicate ClosedSlot(t: Table, c: nat) {
    c < |t.fibers| && t.fibers[c].state.Closed?
  }

  // get_child hands over the response of the first child that has one. If none has, it returns nothing
  // when every child is closed, and has reaped them all; and it waits when one is not, and none of
  // those left is closed. As these cases exclude each other, each says exactly when.
  lemma {:induction false} GetChildMeans(s: State, p: nat)
    requires Scene(s, p)
    ensures var (s', r) := ChildIter(s, p);
            var cs, cs' := s.tab.fibers[p].children, s'.tab.fibers[p].children;
            match r
            case Got(v) => FirstSends(s.tab, cs, v)
            case Empty => cs' == [] && forall c :: c in cs ==> Sends(s.tab, c, None) && ClosedSlot(s.tab, c)
            case Block =>
              && (forall c :: c in cs ==> Sends(s.tab, c, None)) && (exists c :: c in cs && !ClosedSlot(s.tab, c))
              && (forall c :: c in cs' ==> c in cs && c < |s'.tab.fibers| && !ChildReady(s'.tab, c))
    decreases |s.tab.fibers[p].children|
  {
    SceneFacts(s, p);
    var cs := s.tab.fibers[p].children;
    if cs != [] {
      var k := FirstReady(s.tab, cs, 0);
      if k == |cs| {
        NoneReady(s.tab, cs);
      } else {
        TakeChildScene(s, p, k);
        if s.tab.fibers[cs[k]].result.None? {
          GetChildMeans(TakeChild(s, p, k), p);
          ReapedChildren(s, p, k);
          AcrossReaping(s.tab, TakeChild(s, p, k).tab, cs, k);
        } else {
          FirstReadySends(s.tab, cs);
        }
      }
    }
  }

  lemma NoneReady(t: Table, cs: seq<nat>)
    requires cs != [] && (forall j :: 0 <= j < |cs| ==> cs[j] < |t.fibers|) && FirstReady(t, cs, 0) == |cs|
    ensures forall c :: c in cs ==> Sends(t, c, None) && !ClosedSlot(t, c)
    ensures exists c :: c in cs && !ClosedSlot(t, c)
  {
    assert cs[0] in cs;
  }

  lemma FirstReadySends(t: Table, cs: seq<nat>)
    requires forall j :: 0 <= j < |cs| ==> cs[j] < |t.fibers|
    requires var k := FirstReady(t, cs, 0); k < |cs| && t.fibers[cs[k]].result.Some?
    ensures FirstSends(t, cs, t.fibers[cs[FirstReady(t, cs, 0)]].result.value)
  {
    var k := FirstReady(t, cs, 0);
    assert Sends(t, cs[k], Some(t.fibers[cs[k]].result.value));
  }

  // What is true of the children after the first ready one, closed and without a response, was reaped.
  lemma AcrossReaping(t: Table, t': Table, cs: seq<nat>, k: nat)
    requires NoDup(cs) && forall j :: 0 <= j < |cs| ==> cs[j] < |t.fibers|
    requires k == FirstReady(t, cs, 0) < |cs| && t.fibers[cs[k]].state.Closed? && t.fibers[cs[k]].result.None?
    requires var cs' := SwapRemoveFront(cs, k);
             forall c :: c in cs' ==>
               c < |t.fibers| == |t'.fibers| && t'.fibers[c].result == t.fibers[c].result && t'.fibers[c].state == t.fibers[c].state
    ensures var cs' := SwapRemoveFront(cs, k);
            && (forall v :: FirstSends(t', cs', v) ==> FirstSends(t, cs, v))
            && (forall c :: c in cs' ==> c in cs)
            && (forall c :: c in cs ==> c == cs[k] || c in cs')
            && (forall c, r :: c in cs' ==> (Sends(t', c, r) <==> Sends(t, c, r)))
            && (forall c :: c in cs' ==> (ClosedSlot(t', c) <==> ClosedSlot(t, c)))
            && Sends(t, cs[k], None) && ClosedSlot(t, cs[k])
  {
    SwapRemoveFrontRemoves(cs, k);
    var cs' := SwapRemoveFront(cs, k);
    hide NoDup, FirstReady, SwapRemoveFront;
    forall v | FirstSends(t', cs', v) ensures FirstSends(t, cs, v) {
      var j: nat :| j < |cs'| && Sends(t', cs'[j], Some(v)) && forall i: nat :: i < j ==> Sends(t', cs'[i], None);
      forall i: nat | i <= j ensures cs'[i] in cs' {
      }
      BeforeReaping(t, cs, k, j, v);
    }
  }

  lemma BeforeReaping(t: Table, cs: seq<nat>, k: nat, j: nat, v: Resp)
    requires forall j :: 0 <= j < |cs| ==> cs[j] < |t.fibers|
    requires k == FirstReady(t, cs, 0) < |cs| && t.fibers[cs[k]].result.None?
    requires var cs' := SwapRemoveFront(cs, k);
             j < |cs'| && Sends(t, cs'[j], Some(v)) && forall i: nat :: i < j ==> Sends(t, cs'[i], None)
    ensures FirstSends(t, cs, v)
  {
    var cs' := SwapRemoveFront(cs, k);
    assert forall i: nat :: i < k ==> !ChildReady(t, cs[i]);
    assert forall i: nat :: i < |cs'| && i + 1 != k ==> cs'[i] == cs[i + 1];
    assert k > 0 ==> cs'[k - 1] == cs[0];
    assert j + 1 != k;
    hide FirstReady, SwapRemoveFront;
    assert Sends(t, cs[j + 1], Some(v));
    forall i: nat | i < j + 1 ensures Sends(t, cs[i], None) {
      if i > k {
        assert cs'[i - 1] == cs[i];
      }
    }
  }

  // Reaping a child leaves the other children, with their responses.
  lemma ReapedChildren(s: State, p: nat, k: nat)
    requires Scene(s, p) && k < |s.tab.fibers[p].children|
    requires ChildOk(s.tab, p, s.tab.fibers[p].children[k]) && SlotOk(s.tab, s.tab.fibers[p].children[k])
    requires var c := s.tab.fibers[p].children[k]; s.tab.fibers[c].state.Closed?
    ensures var s' := TakeChild(s, p, k);
            |s'.tab.fibers| == |s.tab.fibers|
            && forall c :: c in s'.tab.fibers[p].children ==>
                 && c in s.tab.fibers[p].children && c < |s.tab.fibers| && s'.tab.fibers[c].result == s.tab.fibers[c].result
                 && s'.tab.fibers[c].state == s.tab.fibers[c].state
    ensures TakeChild(s, p, k).tab.fibers[p].children == SwapRemoveFront(s.tab.fibers[p].children, k)
  {
    SceneFacts(s, p);
    var cs := s.tab.fibers[p].children;
    assert cs[k] in cs;
    SwapRemoveFrontRemoves(cs, k);
    assert Collect(s, cs[k]).tab.fibers[p] == s.tab.fibers[p];
  }

  // ---------- spawning ----------

  function ParentFor(child: bool, pos: nat): Option<nat> {
    if child then Some(pos) else None
  }

  // A new fiber with a function and a parameter.
  function SpawnFiber(s: State, parent: Option<nat>, schedule: bool): State
    requires Inv(s.tab) && (parent.Some? ==> parent.value < |s.tab.fibers|)
  {
    var s1 := Enroll(s, true, true, parent);
    if schedule then s1.(toexec := s1.toexec + [NextSlot(s.tab)]) else s1
  }

  // A listener whose socket is refused.
  function Refuse(s: State): State {
    s.(tab := LoseSlot(s.tab))
  }

  lemma RefuseKeeps(s: State, x: int)
    requires Good(s) && QuietBut(s.tab, x)
    ensures Good(Refuse(s)) && QuietBut(Refuse(s).tab, x)
  {
    var t := LoseSlot(s.tab);
    LoseSlotKeepsInv(s.tab);
    BirthsKnown(s.tab);
    SameRecordsConserved(s, t);
    forall i: nat | i < |t.fibers| && i != x ensures SlotQuiet(t, i) {
      assert SlotQuiet(s.tab, i);
    }
  }

  // How many ticks of 250 ms a lookup may take: its timeout, at least one and at most 255.
  function LookupTicks(timeout: nat): nat {
    var ticks := timeout / 1_000_000 / 250;
    if ticks == 0 then 1 else if ticks > 255 then 255 else ticks
  }

  // A new fiber that waits for a name lookup. If the lookup cannot be started the registration is
  // undone; the slot is given back with its timer, so only if a timer was armed.
  function ResolveFiber(s: State, parent: Option<nat>, armed: bool, timeout: nat, ok: bool): State
    requires Inv(s.tab) && (parent.Some? ==> parent.value < |s.tab.fibers| && parent.value != NextSlot(s.tab))
  {
    var s1 := Enroll(s, true, true, parent);
    var pos := NextSlot(s.tab);
    var f := s1.tab.fibers[pos].(wtoken := armed, timedOut := LookupTicks(timeout));
    if ok then Put(s1, pos, f.(connecting := true))
    else
      var s2 := Put(s1, pos, f);
      var s3 := s2.(tab := Disown(s2.tab, pos));
      if !armed then s3
      else
        var s4 := Put(s3, pos, s3.tab.fibers[pos].(wtoken := false));
        s4.(tab := Release(s4.tab, pos))
  }

  lemma EnrollQuiet(s: State, func: bool, param: bool, parent: Option<nat>, x: int)
    requires Good(s) && QuietBut(s.tab, x)
    requires parent.Some? ==> parent.value == x && parent.value < |s.tab.fibers| && parent.value != NextSlot(s.tab)
    ensures QuietBut(Enroll(s, func, param, parent).tab, x)
  {
    var s' := Enroll(s, func, param, parent);
    PlaceKeepsFree(s.tab, NewFiber(func, param, parent, s.tab.births));
    if s.tab.free != [] {
      NoDupTail(s.tab.free);
    }
    forall i: nat | i < |s'.tab.fibers| && i != x ensures SlotQuiet(s'.tab, i) {
      if i != NextSlot(s.tab) {
        assert SlotQuiet(s.tab, i);
      }
    }
  }

  lemma AliveIsNotNext(t: Table, i: nat)
    requires Inv(t) && Alive(t, i)
    ensures i != NextSlot(t) && !Vacant(t, i)
  {
    NextSlotIsFree(t);
    assert SlotOk(t, i);
  }

  lemma SpawnKeeps(s: State, parent: Option<nat>, schedule: bool, x: int)
    requires Good(s) && QuietBut(s.tab, x)
    requires parent.Some? ==> parent.value == x && parent.value < |s.tab.fibers| && s.tab.fibers[parent.value].state.Stacked?
    ensures var s' := SpawnFiber(s, parent, schedule); Good(s') && QuietBut(s'.tab, x)
    ensures forall i: nat :: Alive(s.tab, i) ==>
      Kept(s, SpawnFiber(s, parent, schedule), i) && SpawnFiber(s, parent, schedule).tab.fibers[i].wait == s.tab.fibers[i].wait
  {
    if parent.Some? {
      assert SlotOk(s.tab, parent.value);
      AliveIsNotNext(s.tab, parent.value);
    }
    EnrollKeepsGood(s, true, true, parent);
    EnrollQuiet(s, true, true, parent, x);
    QueuesDoNotMatter(Enroll(s, true, true, parent), SpawnFiber(s, parent, schedule));
    forall i: nat | Alive(s.tab, i) ensures i != NextSlot(s.tab) {
      AliveIsNotNext(s.tab, i);
    }
  }

  lemma DisownKeepsGood(s: State, pos: nat)
    requires Good(s) && pos < |s.tab.fibers| && s.tab.fibers[pos].wait.NotStarted? && s.tab.fibers[pos].result.None?
    requires s.tab.fibers[pos].birth < s.tab.births && s.log.got[s.tab.fibers[pos].birth] == []
    requires s.tab.fibers[pos].parent.Some? ==>
      && s.tab.fibers[pos].parent.value < |s.tab.fibers|
      && var cs := s.tab.fibers[s.tab.fibers[pos].parent.value].children; cs != [] && cs[|cs| - 1] == pos
    ensures Good(s.(tab := Disown(s.tab, pos))) && !Vacant(Disown(s.tab, pos), pos)
  {
    DisownKeepsInv(s.tab, pos);
    BirthsKnown(s.tab);
    SameRecordsConserved(s, Disown(s.tab, pos));
  }

  lemma ResolveKeeps(s: State, parent: Option<nat>, armed: bool, timeout: nat, ok: bool, x: int)
    requires Good(s) && QuietBut(s.tab, x) && (x >= 0 ==> Alive(s.tab, x))
    requires parent.Some? ==> parent.value == x && parent.value < |s.tab.fibers| && s.tab.fibers[parent.value].state.Stacked?
    ensures parent.Some? ==> parent.value != NextSlot(s.tab)
    ensures var s' := ResolveFiber(s, parent, armed, timeout, ok); Good(s') && QuietBut(s'.tab, x)
    ensures forall i: nat :: Alive(s.tab, i) ==>
      && Kept(s, ResolveFiber(s, parent, armed, timeout, ok), i)
      && ResolveFiber(s, parent, armed, timeout, ok).tab.fibers[i].wait == s.tab.fibers[i].wait
  {
    Enrolled(s, parent, x);
    ResolveGood(s, parent, armed, timeout, ok, x);
    forall i: nat | Alive(s.tab, i) ensures i != NextSlot(s.tab) {
      AliveIsNotNext(s.tab, i);
    }
    hide Good, Inv, Conserved, QuietBut;
  }

  lemma ResolveGood(s: State, parent: Option<nat>, armed: bool, timeout: nat, ok: bool, x: int)
    requires Good(s) && QuietBut(s.tab, x) && (x >= 0 ==> Alive(s.tab, x))
    requires parent.Some? ==> parent.value == x && parent.value < |s.tab.fibers| && s.tab.fibers[parent.value].state.Stacked?
    requires parent.Some? ==> parent.value != NextSlot(s.tab)
    ensures var s' := ResolveFiber(s, parent, armed, timeout, ok); Good(s') && QuietBut(s'.tab, x)
  {
    Enrolled(s, parent, x);
    var s1 := Enroll(s, true, true, parent);
    var pos := NextSlot(s.tab);
    var f := s1.tab.fibers[pos].(wtoken := armed, timedOut := LookupTicks(timeout));
    hide Good, Conserved, Inv, Register;
    if ok {
      PutKeepsGood(s1, pos, f.(connecting := true));
      QuietAfterPut(s1, pos, f.(connecting := true), x);
    } else {
      PutKeepsGood(s1, pos, f);
      QuietAfterPut(s1, pos, f, x);
      FailedResolveKeeps(Put(s1, pos, f), pos, parent, armed, x);
    }
  }

  // A fiber just registered: alone in its slot, nothing sent, and the newest child of its parent.
  lemma Enrolled(s: State, parent: Option<nat>, x: int)
    requires Good(s) && QuietBut(s.tab, x) && (x >= 0 ==> Alive(s.tab, x))
    requires parent.Some? ==> parent.value == x && parent.value < |s.tab.fibers| && s.tab.fibers[parent.value].state.Stacked?
    ensures (parent.Some? ==> parent.value != NextSlot(s.tab)) && x != NextSlot(s.tab)
    ensures var s1 := Enroll(s, true, true, parent);
            var pos := NextSlot(s.tab);
            && Good(s1) && QuietBut(s1.tab, x) && pos < |s1.tab.fibers| && !Vacant(s1.tab, pos)
            && s1.tab.fibers[pos] == NewFiber(true, true, parent, s.tab.births)
            && s1.tab.births == s.tab.births + 1 == |s1.log.got| && s1.log.got[s.tab.births] == []
            && (parent.Some? ==> var cs := s1.tab.fibers[parent.value].children; cs != [] && cs[|cs| - 1] == pos)
            && |s.tab.fibers| <= |s1.tab.fibers|
            && forall i: nat :: i < |s.tab.fibers| && i != pos ==>
                 && s1.tab.fibers[i].birth == s.tab.fibers[i].birth && s1.tab.fibers[i].parent == s.tab.fibers[i].parent
                 && s1.tab.fibers[i].wait == s.tab.fibers[i].wait
  {
    if x >= 0 {
      AliveIsNotNext(s.tab, x);
    }
    EnrollKeepsGood(s, true, true, parent);
    EnrollQuiet(s, true, true, parent, x);
  }

  lemma QuietAfterPut(s: State, pos: nat, f: Fiber, x: int)
    requires QuietBut(s.tab, x) && pos < |s.tab.fibers|
    requires pos == x || (SlotQuiet(s.tab, pos) ==> SlotQuiet(With(s.tab, pos, f), pos))
    ensures QuietBut(Put(s, pos, f).tab, x)
  {
    forall i: nat | i < |s.tab.fibers| && i != x ensures SlotQuiet(Put(s, pos, f).tab, i) {
      assert SlotQuiet(s.tab, i);
    }
  }

  lemma FailedResolveKeeps(s: State, pos: nat, parent: Option<nat>, armed: bool, x: int)
    requires Good(s) && QuietBut(s.tab, x) && pos < |s.tab.fibers| && pos != x
    requires var f := s.tab.fibers[pos];
             && f.wait.NotStarted? && f.result.None? && !f.connecting && f.parent == parent && f.wtoken == armed
             && f.birth < s.tab.births && s.log.got[f.birth] == []
    requires parent.Some? ==>
      && parent.value == x && parent.value < |s.tab.fibers|
      && var cs := s.tab.fibers[parent.value].children; cs != [] && cs[|cs| - 1] == pos
    ensures var s3 := s.(tab := Disown(s.tab, pos));
            var s4 := Put(s3, pos, s3.tab.fibers[pos].(wtoken := false));
            && Good(s3) && (!armed ==> QuietBut(s3.tab, x))
            && Good(s4.(tab := Release(s4.tab, pos))) && QuietBut(Release(s4.tab, pos), x)
  {
    DisownKeepsGood(s, pos);
    assert SlotOk(s.tab, pos);
    var s3 := s.(tab := Disown(s.tab, pos));
    forall i: nat | i < |s3.tab.fibers| && i != x && (i != pos || !armed) ensures SlotQuiet(s3.tab, i) {
      assert SlotQuiet(s.tab, i);
    }
    var f := s3.tab.fibers[pos].(wtoken := false);
    assert SlotOk(s3.tab, pos);
    PutKeepsGood(s3, pos, f);
    var s4 := Put(s3, pos, f);
    forall i: nat | i < |s4.tab.fibers| && i != x ensures SlotQuiet(s4.tab, i) {
      assert i != pos ==> SlotQuiet(s3.tab, i);
    }
    ReleaseKeepsGood(s4, pos);
    forall i: nat | i < |s4.tab.fibers| && i != x ensures SlotQuiet(Release(s4.tab, pos), i) {
      assert SlotQuiet(s4.tab, i);
    }
  }
}
