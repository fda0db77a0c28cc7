// The runner's state as a value: the table of slots, the queues, and a record of what the fibers
// sent and what was taken from them; with the primitive steps that all scheduling is made of.
module FiberState {
  import opened Wrappers
  import opened FiberTable

  datatype Sent = Sent(birth: nat, value: Resp)

  // The history of responses, by birth number: what each fiber sent, what was taken from it, and how
  // many of its values were overwritten or cancelled before they were taken. `main` lists what was
  // handed to the main stack, of which the first `popped` were fetched. `joined` is set once a fiber
  // has used join_main, which passes values through the same field in the other direction.
  datatype Log = Log(
    sent: seq<seq<Resp>>, got: seq<seq<Resp>>, dropped: seq<nat>, main: seq<Sent>, popped: nat, joined: bool)

  datatype State = State(tab: Table, toexec: seq<nat>, tomain: seq<nat>, results: seq<Resp>, log: Log)

  function Start(): State {
    State(Table([], [], {}, 0, [], 0, {}), [], [], [], Log([], [], [], [], 0, false))
  }

  // ---------- conservation of responses ----------

  function Pending(r: Option<Resp>): seq<Resp> {
    if r.Some? then [r.value] else []
  }

  function Values(s: seq<Sent>): (r: seq<Resp>)
    ensures |r| == |s| && forall i :: 0 <= i < |s| ==> r[i] == s[i].value
  {
    seq(|s|, i requires 0 <= i < |s| => s[i].value)
  }

  // What one fiber handed to the main stack.
  function From(main: seq<Sent>, birth: nat): seq<Resp> {
    if main == [] then []
    else
      var last := main[|main| - 1];
      From(main[..|main| - 1], birth) + (if last.birth == birth then [last.value] else [])
  }

  // Everything sent was taken, is pending, or was dropped; and if nothing was dropped, in order.
  ghost predicate Balanced(log: Log, b: nat, pending: seq<Resp>) {
    && b < |log.sent| && b < |log.got| && b < |log.dropped|
    && |log.sent[b]| == |log.got[b]| + |pending| + log.dropped[b]
    && (log.dropped[b] == 0 ==> log.sent[b] == log.got[b] + pending)
  }

  ghost predicate SlotBalanced(s: State, i: nat)
    requires i < |s.tab.fibers|
  {
    var f := s.tab.fibers[i];
    && Balanced(s.log, f.birth, Pending(f.result))
    && From(s.log.main, f.birth) == (if f.parent.None? then s.log.got[f.birth] else [])
  }

  ghost predicate Occupied(s: State, b: nat) {
    exists i: nat :: i < |s.tab.fibers| && s.tab.fibers[i].birth == b
  }

  ghost predicate Conserved(s: State) {
    && |s.log.sent| == |s.log.got| == |s.log.dropped| == s.tab.births
    && (forall i: nat :: Vacant(s.tab, i) && i < |s.tab.fibers| ==> s.tab.fibers[i].result.None?)
    && s.log.popped <= |s.log.main| && s.results == Values(s.log.main[s.log.popped..])
    && (forall k :: 0 <= k < |s.log.main| ==> s.log.main[k].birth < s.tab.births)
    && (!s.log.joined ==>
        && (forall i: nat :: i < |s.tab.fibers| ==> SlotBalanced(s, i))
        && (forall b: nat :: b < s.tab.births ==> Occupied(s, b) || Balanced(s.log, b, [])))
  }

  ghost predicate Good(s: State) {
    Inv(s.tab) && Conserved(s)
  }

  // The queues of fibers to run have no part in it.
  lemma QueuesDoNotMatter(s: State, s': State)
    requires Good(s) && s'.tab == s.tab && s'.log == s.log && s'.results == s.results
    ensures Good(s')
  {
    SameOccupants(s, s');
    if !s.log.joined {
      forall j: nat | j < |s'.tab.fibers| ensures SlotBalanced(s', j) {
        assert SlotBalanced(s, j);
      }
    }
  }

  // ---------- primitive steps ----------

  function Put(s: State, i: nat, f: Fiber): State
    requires i < |s.tab.fibers|
  {
    s.(tab := With(s.tab, i, f))
  }

  // A change to one record that moves no response.
  ghost predicate Quietly(f: Fiber, f': Fiber) {
    KeepsPlace(f, f') && f'.result == f.result
  }

  lemma PutKeepsGood(s: State, i: nat, f: Fiber)
    requires Good(s) && i < |s.tab.fibers| && Quietly(s.tab.fibers[i], f) && (Vacant(s.tab, i) ==> f.wait.Dead?)
    ensures Good(Put(s, i, f))
  {
    WithKeepsInv(s.tab, i, f);
    var s' := Put(s, i, f);
    SameOccupants(s, s');
    if !s.log.joined {
      forall j: nat | j < |s'.tab.fibers| ensures SlotBalanced(s', j) {
        assert SlotBalanced(s, j);
      }
    }
  }

  lemma SameOccupants(s: State, s': State)
    requires |s'.tab.fibers| == |s.tab.fibers|
    requires forall i: nat :: i < |s.tab.fibers| ==> s'.tab.fibers[i].birth == s.tab.fibers[i].birth
    ensures forall b: nat :: Occupied(s, b) ==> Occupied(s', b)
  {
    forall b: nat | Occupied(s, b) ensures Occupied(s', b) {
      var i: nat :| i < |s.tab.fibers| && s.tab.fibers[i].birth == b;
      assert s'.tab.fibers[i].birth == b;
    }
  }

  // The fiber in slot i puts a new response, or none, into its result field. A value still there is
  // overwritten.
  function Send(s: State, i: nat, r: Option<Resp>): State
    requires i < |s.tab.fibers| && Conserved(s) && s.tab.fibers[i].birth < s.tab.births
  {
    var f := s.tab.fibers[i];
    var b := f.birth;
    var log := s.log;
    Put(s, i, f.(result := r)).(log := log.(
      sent := log.sent[b := log.sent[b] + Pending(r)],
      dropped := log.dropped[b := log.dropped[b] + |Pending(f.result)|]))
  }

  lemma SendKeepsGood(s: State, i: nat, r: Option<Resp>)
    requires Good(s) && i < |s.tab.fibers| && (Vacant(s.tab, i) ==> r.None?) && SlotOk(s.tab, i)
    ensures Good(Send(s, i, r))
  {
    var s' := Send(s, i, r);
    var f := s.tab.fibers[i];
    WithKeepsInv(s.tab, i, f.(result := r));
    if !s.log.joined {
      forall j: nat | j < |s'.tab.fibers| ensures SlotBalanced(s', j) {
        SendKeepsSlot(s, i, r, j);
      }
      forall b: nat | b < s'.tab.births ensures Occupied(s', b) || Balanced(s'.log, b, []) {
        SendKeepsOthers(s, i, r, b);
      }
    }
  }

  lemma SendKeepsSlot(s: State, i: nat, r: Option<Resp>, j: nat)
    requires Good(s) && i < |s.tab.fibers| && j < |s.tab.fibers| && SlotOk(s.tab, i) && !s.log.joined
    ensures SlotBalanced(Send(s, i, r), j)
  {
    assert SlotBalanced(s, i) && SlotBalanced(s, j);
    DistinctBirths(s.tab, i, j);
  }

  lemma SendKeepsOthers(s: State, i: nat, r: Option<Resp>, b: nat)
    requires Good(s) && i < |s.tab.fibers| && SlotOk(s.tab, i) && !s.log.joined && b < s.tab.births
    ensures Occupied(Send(s, i, r), b) || Balanced(Send(s, i, r).log, b, [])
  {
    var s' := Send(s, i, r);
    SameOccupants(s, s');
    assert Occupied(s, b) || Balanced(s.log, b, []);
    if b == s.tab.fibers[i].birth {
      assert s'.tab.fibers[i].birth == b;
    }
  }

  lemma DistinctBirths(t: Table, i: nat, j: nat)
    requires Inv(t) && i < |t.fibers| && j < |t.fibers|
    ensures i != j ==> t.fibers[i].birth != t.fibers[j].birth
  {
    if i < j {
      assert !SameBirth(t, i, j);
    } else if j < i {
      assert !SameBirth(t, j, i);
    }
  }

  // The pending response of slot i, if any, is taken by its parent.
  function Collect(s: State, i: nat): State
    requires i < |s.tab.fibers| && Conserved(s) && s.tab.fibers[i].birth < s.tab.births
  {
    var f := s.tab.fibers[i];
    var b := f.birth;
    Put(s, i, f.(result := None)).(log := s.log.(got := s.log.got[b := s.log.got[b] + Pending(f.result)]))
  }

  // The pending response of slot i, if any, goes to the main stack.
  function Publish(s: State, i: nat): State
    requires i < |s.tab.fibers| && Conserved(s) && s.tab.fibers[i].birth < s.tab.births
  {
    var f := s.tab.fibers[i];
    var s' := Collect(s, i);
    if f.result.None? then s'
    else s'.(results := s.results + [f.result.value], log := s'.log.(main := s.log.main + [Sent(f.birth, f.result.value)]))
  }

  lemma FromAppend(main: seq<Sent>, x: Sent, b: nat)
    ensures From(main + [x], b) == From(main, b) + (if x.birth == b then [x.value] else [])
  {
    assert (main + [x])[..|main|] == main;
  }

  lemma CollectKeepsGood(s: State, i: nat)
    requires Good(s) && i < |s.tab.fibers| && SlotOk(s.tab, i)
    requires s.tab.fibers[i].parent.Some? || s.tab.fibers[i].result.None?
    ensures Good(Collect(s, i))
  {
    var s' := Collect(s, i);
    var f := s.tab.fibers[i];
    WithKeepsInv(s.tab, i, f.(result := None));
    if !s.log.joined {
      forall j: nat | j < |s'.tab.fibers| ensures SlotBalanced(s', j) {
        CollectKeepsSlot(s, i, j);
      }
      CollectKeepsOthers(s, i);
    }
  }

  lemma CollectKeepsSlot(s: State, i: nat, j: nat)
    requires Good(s) && i < |s.tab.fibers| && j < |s.tab.fibers| && SlotOk(s.tab, i) && !s.log.joined
    requires s.tab.fibers[i].parent.Some? || s.tab.fibers[i].result.None?
    ensures SlotBalanced(Collect(s, i), j)
  {
    assert SlotBalanced(s, i) && SlotBalanced(s, j);
    DistinctBirths(s.tab, i, j);
  }

  lemma CollectKeepsOthers(s: State, i: nat)
    requires Good(s) && i < |s.tab.fibers| && SlotOk(s.tab, i) && !s.log.joined
    ensures forall b: nat :: b < s.tab.births ==> Occupied(Collect(s, i), b) || Balanced(Collect(s, i).log, b, [])
  {
    var s' := Collect(s, i);
    SameOccupants(s, s');
    forall b: nat | b < s.tab.births ensures Occupied(s', b) || Balanced(s'.log, b, []) {
      assert Occupied(s, b) || Balanced(s.log, b, []);
      if b == s.tab.fibers[i].birth {
        assert s'.tab.fibers[i].birth == b;
      }
    }
  }

  lemma PublishKeepsGood(s: State, i: nat)
    requires Good(s) && i < |s.tab.fibers| && SlotOk(s.tab, i) && s.tab.fibers[i].parent.None?
    ensures Good(Publish(s, i))
  {
    var s' := Publish(s, i);
    var f := s.tab.fibers[i];
    WithKeepsInv(s.tab, i, f.(result := None));
    if f.result.None? {
      CollectKeepsGood(s, i);
    } else {
      var x := Sent(f.birth, f.result.value);
      assert (s.log.main + [x])[s.log.popped..] == s.log.main[s.log.popped..] + [x];
      assert Values(s.log.main[s.log.popped..] + [x]) == s.results + [x.value];
      SameOccupants(s, s');
      if !s.log.joined {
        CollectKeepsOthers(s, i);
        forall b: nat | b < s'.tab.births ensures Occupied(s', b) || Balanced(s'.log, b, []) {
          assert Occupied(Collect(s, i), b) || Balanced(Collect(s, i).log, b, []);
        }
        forall j: nat | j < |s'.tab.fibers| ensures SlotBalanced(s', j) {
          PublishSlot(s, i, j);
        }
      }
    }
  }

  lemma PublishSlot(s: State, i: nat, j: nat)
    requires Good(s) && i < |s.tab.fibers| && j < |s.tab.fibers| && SlotOk(s.tab, i) && !s.log.joined
    requires s.tab.fibers[i].parent.None? && s.tab.fibers[i].result.Some?
    ensures SlotBalanced(Publish(s, i), j)
  {
    var f := s.tab.fibers[i];
    assert SlotBalanced(s, j) && SlotBalanced(s, i);
    DistinctBirths(s.tab, i, j);
    FromAppend(s.log.main, Sent(f.birth, f.result.value), s.tab.fibers[j].birth);
  }

  // A new fiber.
  function Enroll(s: State, func: bool, param: bool, parent: Option<nat>): State
    requires Inv(s.tab) && (parent.Some? ==> parent.value < |s.tab.fibers|)
  {
    s.(tab := Register(s.tab, func, param, parent),
       log := s.log.(sent := s.log.sent + [[]], got := s.log.got + [[]], dropped := s.log.dropped + [0]))
  }

  lemma FromFresh(main: seq<Sent>, b: nat)
    requires forall k :: 0 <= k < |main| ==> main[k].birth < b
    ensures From(main, b) == []
  {
  }

  lemma EnrollKeepsGood(s: State, func: bool, param: bool, parent: Option<nat>)
    requires Good(s) && (parent.Some? ==> parent.value < |s.tab.fibers| && s.tab.fibers[parent.value].state.Stacked?)
    requires (func ==> param) && (parent.Some? ==> func && param)
    ensures Good(Enroll(s, func, param, parent))
    ensures !Vacant(Enroll(s, func, param, parent).tab, NextSlot(s.tab))
  {
    if parent.None? {
      RegisterRootKeepsInv(s.tab, func, param);
    } else {
      RegisterChildKeepsInv(s.tab, parent.value);
    }
    NextSlotIsFree(s.tab);
    PlaceKeepsFree(s.tab, NewFiber(func, param, parent, s.tab.births));
    EnrollKeepsConserved(s, func, param, parent);
  }

  lemma EnrollKeepsConserved(s: State, func: bool, param: bool, parent: Option<nat>)
    requires Good(s) && (parent.Some? ==> parent.value < |s.tab.fibers| && parent.value != NextSlot(s.tab))
    requires s.tab.free != [] ==> Vacant(s.tab, NextSlot(s.tab)) && NextSlot(s.tab) < |s.tab.fibers|
    requires forall i: nat :: Vacant(Enroll(s, func, param, parent).tab, i) ==> Vacant(s.tab, i) && i != NextSlot(s.tab)
    ensures Conserved(Enroll(s, func, param, parent))
  {
    var s' := Enroll(s, func, param, parent);
    if !s.log.joined {
      forall j: nat | j < |s'.tab.fibers| ensures SlotBalanced(s', j) {
        EnrollSlot(s, func, param, parent, j);
      }
      forall b: nat | b < s'.tab.births ensures Occupied(s', b) || Balanced(s'.log, b, []) {
        EnrollSettles(s, func, param, parent, b);
      }
    }
  }

  lemma EnrollSlot(s: State, func: bool, param: bool, parent: Option<nat>, j: nat)
    requires Good(s) && (parent.Some? ==> parent.value < |s.tab.fibers| && parent.value != NextSlot(s.tab))
    requires !s.log.joined && j < |Enroll(s, func, param, parent).tab.fibers|
    ensures SlotBalanced(Enroll(s, func, param, parent), j)
  {
    if j == NextSlot(s.tab) {
      FromFresh(s.log.main, s.tab.births);
    } else {
      assert SlotBalanced(s, j);
      BirthsKnown(s.tab);
    }
  }

  lemma EnrollSettles(s: State, func: bool, param: bool, parent: Option<nat>, b: nat)
    requires Good(s) && (parent.Some? ==> parent.value < |s.tab.fibers| && parent.value != NextSlot(s.tab))
    requires s.tab.free != [] ==> Vacant(s.tab, NextSlot(s.tab)) && NextSlot(s.tab) < |s.tab.fibers|
    requires !s.log.joined && b < s.tab.births + 1
    ensures Occupied(Enroll(s, func, param, parent), b) || Balanced(Enroll(s, func, param, parent).log, b, [])
  {
    var s' := Enroll(s, func, param, parent);
    var pos := NextSlot(s.tab);
    if b == s.tab.births {
      assert s'.tab.fibers[pos].birth == b;
    } else if Occupied(s, b) {
      var i: nat :| i < |s.tab.fibers| && s.tab.fibers[i].birth == b;
      assert SlotBalanced(s, i);
      if i != pos {
        assert s'.tab.fibers[i].birth == b;
      }
    } else {
      assert Balanced(s.log, b, []);
    }
  }

  // Steps that only touch the forest, the free list or the stacks.
  lemma SameRecordsConserved(s: State, t: Table)
    requires Conserved(s) && |t.fibers| == |s.tab.fibers| && t.births == s.tab.births
    requires forall i: nat :: i < |t.fibers| ==> s.tab.fibers[i].birth < s.tab.births
    requires forall i: nat :: i < |t.fibers| ==>
      && t.fibers[i].birth == s.tab.fibers[i].birth && t.fibers[i].result == s.tab.fibers[i].result
      && (t.fibers[i].parent == s.tab.fibers[i].parent || (t.fibers[i].parent.None? && s.log.got[s.tab.fibers[i].birth] == []))
    requires forall i: nat :: Vacant(t, i) && i < |t.fibers| ==> t.fibers[i].result.None?
    ensures Conserved(s.(tab := t))
  {
    var s' := s.(tab := t);
    SameOccupants(s, s');
    if !s.log.joined {
      forall j: nat | j < |t.fibers| ensures SlotBalanced(s', j) {
        assert SlotBalanced(s, j);
      }
    }
  }

  lemma BirthsKnown(t: Table)
    requires Inv(t)
    ensures forall i: nat :: i < |t.fibers| ==> t.fibers[i].birth < t.births
  {
    forall i: nat | i < |t.fibers| ensures t.fibers[i].birth < t.births {
      assert SlotOk(t, i);
    }
  }

  lemma ReapKeepsGood(s: State, p: nat, k: nat)
    requires Good(s) && p < |s.tab.fibers| && k < |s.tab.fibers[p].children|
    requires var c := s.tab.fibers[p].children[k];
             c < |s.tab.fibers| && s.tab.fibers[c].wait.Dead? && !s.tab.fibers[c].t && s.tab.fibers[c].result.None?
    ensures Good(s.(tab := Reap(s.tab, p, k)))
  {
    ReapKeepsInv(s.tab, p, k);
    BirthsKnown(s.tab);
    SameRecordsConserved(s, Reap(s.tab, p, k));
  }

  lemma ReleaseKeepsGood(s: State, i: nat)
    requires Good(s) && i < |s.tab.fibers| && i !in s.tab.free && s.tab.fibers[i].wait.Dead? && !s.tab.fibers[i].t
    requires (i in s.tab.lost || s.tab.fibers[i].parent.None?) && s.tab.fibers[i].result.None?
    ensures Good(s.(tab := Release(s.tab, i)))
  {
    ReleaseKeepsInv(s.tab, i);
    BirthsKnown(s.tab);
    SameRecordsConserved(s, Release(s.tab, i));
  }

  lemma LaunchKeepsGood(s: State, i: nat)
    requires Good(s) && i < |s.tab.fibers| && s.tab.fibers[i].wait.NotStarted? && s.tab.fibers[i].func
    requires s.tab.fibers[i].connecting ==> !s.tab.fibers[i].wtoken
    ensures Good(s.(tab := Launch(s.tab, i))) && !Vacant(s.tab, i)
  {
    LaunchKeepsInv(s.tab, i);
    BirthsKnown(s.tab);
    SameRecordsConserved(s, Launch(s.tab, i));
  }

  lemma UnstackKeepsGood(s: State, i: nat)
    requires Good(s) && i < |s.tab.fibers| && s.tab.fibers[i].wait.Dead? && s.tab.fibers[i].t
    ensures s.tab.fibers[i].stack.Some? && !Vacant(s.tab, i)
    ensures Good(s.(tab := Unstack(s.tab, i)))
  {
    UnstackKeepsInv(s.tab, i);
    BirthsKnown(s.tab);
    SameRecordsConserved(s, Unstack(s.tab, i));
  }
}
