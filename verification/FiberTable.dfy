// The runner's table of fiber slots: allocation and reuse, the forest of parents and children, and
// who holds which execution stack.
module FiberTable {
  import opened Wrappers
  import opened Sequences

  // A response passed from a fiber to its parent or to the main stack.
  type Resp = int

  datatype FiberState = Closed | Stacked | Unstacked

  // Where the fiber's own execution stands.
  datatype Wait = NotStarted | Running | AtChildIter | AtIo | AtChunk | AtJoin | Dead

  // A slot's record. `func`, `param`, `t` and `wtoken` say whether the optional field is present.
  // `birth` numbers the fibers of a run in the order they were registered.
  datatype Fiber = Fiber(
    state: FiberState, func: bool, param: bool, t: bool, stack: Option<nat>,
    parent: Option<nat>, children: seq<nat>, result: Option<Resp>,
    wtoken: bool, connecting: bool, timedOut: nat, wait: Wait, birth: nat)

  // `lost` are slots that were taken from the free list and never used. `stacks` is the poller's pool
  // of unused stacks; `made` of them were ever created, and `away` are held by other runners.
  datatype Table = Table(
    fibers: seq<Fiber>, free: seq<nat>, lost: set<nat>, births: nat, stacks: seq<nat>, made: nat, away: set<nat>)

  // ---------- soundness of the table ----------

  // What a record alone has to satisfy.
  predicate FiberOk(f: Fiber) {
    && (f.t <==> f.stack.Some?)
    && (f.connecting && f.wtoken && !f.wait.Dead? ==> f.wait.NotStarted? && f.timedOut > 0)
    && (f.parent.Some? ==> f.func)
    && match f.wait
       case NotStarted => f.state.Unstacked? && !f.t && f.children == [] && (f.func ==> f.param) && (f.connecting ==> f.func)
       case Dead => !f.state.Stacked? && f.children == []
       case _ => f.state.Stacked? && f.t && f.func
  }

  // A slot that no fiber occupies, living or waiting to be reaped.
  predicate Vacant(t: Table, i: nat) {
    i in t.free || i in t.lost
  }

  predicate Alive(t: Table, i: nat) {
    i < |t.fibers| && !t.fibers[i].wait.Dead?
  }

  // The parent of an occupied slot is an older fiber that is running or suspended, and knows it.
  ghost predicate ParentOk(t: Table, i: nat, p: nat)
    requires i < |t.fibers|
  {
    && p < |t.fibers| && t.fibers[p].state.Stacked? && i in t.fibers[p].children
    && t.fibers[p].birth < t.fibers[i].birth
  }

  ghost predicate ChildOk(t: Table, p: nat, c: nat) {
    c < |t.fibers| && !Vacant(t, c) && t.fibers[c].parent == Some(p)
  }

  ghost predicate SlotOk(t: Table, i: nat)
    requires i < |t.fibers|
  {
    var f := t.fibers[i];
    && FiberOk(f) && f.birth < t.births
    && (Vacant(t, i) ==> f.wait.Dead? && !f.t)
    && (f.parent.Some? ==> f.parent.value < |t.fibers|)
    && NoDup(f.children)
    && (forall c :: c in f.children ==> ChildOk(t, i, c))
    && (f.parent.Some? && !Vacant(t, i) ==> ParentOk(t, i, f.parent.value))
  }

  ghost predicate SameBirth(t: Table, i: nat, j: nat)
    requires i < |t.fibers| && j < |t.fibers|
  {
    t.fibers[i].birth == t.fibers[j].birth
  }

  ghost predicate Holds(t: Table, i: nat, k: nat) {
    i < |t.fibers| && t.fibers[i].stack == Some(k)
  }

  ghost predicate StackOk(t: Table, k: nat) {
    && (k < t.made <==> k in t.stacks || k in t.away || exists i :: Holds(t, i, k))
    && (k in t.stacks ==> k !in t.away && forall i :: !Holds(t, i, k))
    && (k in t.away ==> forall i :: !Holds(t, i, k))
    && (forall i, j :: Holds(t, i, k) && Holds(t, j, k) ==> i == j)
  }

  // The free list names dead slots without repetition, parents and children agree and form a forest
  // ordered by age, and every stack ever made is in the pool, held by exactly one fiber, or away.
  ghost predicate Inv(t: Table) {
    && NoDup(t.free) && (forall i :: i in t.free ==> i < |t.fibers|)
    && (forall i :: i in t.lost ==> i < |t.fibers| && i !in t.free)
    && (forall i: nat :: i < |t.fibers| ==> SlotOk(t, i))
    && (forall i: nat, j: nat :: i < j < |t.fibers| ==> !SameBirth(t, i, j))
    && NoDup(t.stacks) && (forall k: nat :: StackOk(t, k))
  }

  // ---------- operations on the table ----------

  function With(t: Table, i: nat, f: Fiber): Table
    requires i < |t.fibers|
  {
    t.(fibers := t.fibers[i := f])
  }

  function NewFiber(func: bool, param: bool, parent: Option<nat>, birth: nat): Fiber {
    Fiber(Unstacked, func, param, false, None, parent, [], None, false, false, 0, NotStarted, birth)
  }

  // The slot that register will use.
  function NextSlot(t: Table): nat {
    if t.free == [] then |t.fibers| else t.free[0]
  }

  // The new fiber in its slot, before its parent learns of it.
  function Place(t: Table, f: Fiber): (r: Table)
    requires Inv(t)
    ensures |t.fibers| <= |r.fibers| && NextSlot(t) < |r.fibers| && r.fibers[NextSlot(t)] == f
    ensures |r.fibers| <= |t.fibers| + 1 && (|r.fibers| > |t.fibers| ==> NextSlot(t) == |t.fibers|)
    ensures forall j: nat :: j < |t.fibers| && j != NextSlot(t) ==> r.fibers[j] == t.fibers[j]
    ensures r.births == t.births + 1 && r.stacks == t.stacks && r.made == t.made && r.away == t.away && r.lost == t.lost
  {
    NextSlotIsFree(t);
    if t.free == [] then t.(fibers := t.fibers + [f], births := t.births + 1)
    else t.(fibers := t.fibers[t.free[0] := f], free := t.free[1..], births := t.births + 1)
  }

  function Register(t: Table, func: bool, param: bool, parent: Option<nat>): Table
    requires Inv(t) && (parent.Some? ==> parent.value < |t.fibers|)
  {
    var placed := Place(t, NewFiber(func, param, parent, t.births));
    if parent.None? then placed
    else
      var p := placed.fibers[parent.value];
      With(placed, parent.value, p.(children := p.children + [NextSlot(t)]))
  }

  // Gives a slot back.
  function Release(t: Table, i: nat): Table {
    t.(free := t.free + [i], lost := t.lost - {i})
  }

  // Takes a closed child, the k-th of its parent, out of the table.
  function Reap(t: Table, p: nat, k: nat): Table
    requires p < |t.fibers| && k < |t.fibers[p].children|
  {
    var f := t.fibers[p];
    Release(With(t, p, f.(children := SwapRemoveFront(f.children, k))), f.children[k])
  }

  // Takes a stack from the pool, or makes one, and starts a fiber on it.
  function Launch(t: Table, i: nat): Table
    requires i < |t.fibers|
  {
    var k := if t.stacks == [] then t.made else t.stacks[0];
    t.(fibers := t.fibers[i := t.fibers[i].(state := Stacked, param := false, t := true, stack := Some(k), wait := Running)],
       stacks := if t.stacks == [] then [] else t.stacks[1..],
       made := if t.stacks == [] then t.made + 1 else t.made)
  }

  // The stack that the next fiber to start gets is held by no fiber, and leaves the pool.
  lemma PoppedStackIsUnheld(t: Table)
    requires Inv(t)
    ensures var k := if t.stacks == [] then t.made else t.stacks[0];
            (forall j :: !Holds(t, j, k)) && k !in t.away && (t.stacks != [] ==> k !in t.stacks[1..] && k < t.made)
    ensures t.stacks != [] ==> multiset(t.stacks[1..]) == multiset(t.stacks) - multiset{t.stacks[0]}
    ensures t.made !in t.stacks
  {
    assert StackOk(t, if t.stacks == [] then t.made else t.stacks[0]) && StackOk(t, t.made);
    if t.stacks != [] {
      NoDupTail(t.stacks);
      assert t.stacks == [t.stacks[0]] + t.stacks[1..];
    }
  }

  // A listener whose socket cannot be registered: the free slot that was to hold it is lost.
  function LoseSlot(t: Table): Table {
    if t.free == [] then t else t.(free := t.free[1..], lost := t.lost + {t.free[0]})
  }

  // Puts a fiber's stack back into the pool.
  function Unstack(t: Table, i: nat): Table
    requires i < |t.fibers| && t.fibers[i].stack.Some?
  {
    var f := t.fibers[i];
    t.(fibers := t.fibers[i := f.(stack := None, t := false)], stacks := [f.stack.value] + t.stacks)
  }

  // ---------- each operation keeps the table sound ----------

  // The records that hold a stack are the same ones.
  lemma SameStacks(t: Table, t': Table)
    requires Inv(t) && t'.stacks == t.stacks && t'.made == t.made && t'.away == t.away
    requires |t.fibers| <= |t'.fibers|
    requires forall i: nat :: i < |t.fibers| ==> t'.fibers[i].stack == t.fibers[i].stack
    requires forall i: nat :: |t.fibers| <= i < |t'.fibers| ==> t'.fibers[i].stack == None
    ensures NoDup(t'.stacks) && forall k: nat :: StackOk(t', k)
  {
    assert forall i, k :: Holds(t', i, k) <==> Holds(t, i, k);
    forall k: nat ensures StackOk(t', k) {
      assert StackOk(t, k);
    }
  }

  // A change to one record that keeps its place in the forest.
  ghost predicate KeepsPlace(f: Fiber, f': Fiber) {
    && FiberOk(f') && f'.parent == f.parent && f'.children == f.children && f'.birth == f.birth
    && f'.stack == f.stack && (f.children == [] || f'.state.Stacked?)
  }

  lemma WithKeepsInv(t: Table, i: nat, f: Fiber)
    requires Inv(t) && i < |t.fibers| && KeepsPlace(t.fibers[i], f) && (Vacant(t, i) ==> f.wait.Dead?)
    ensures Inv(With(t, i, f))
  {
    var t' := With(t, i, f);
    forall j: nat | j < |t'.fibers| ensures SlotOk(t', j) {
      assert SlotOk(t, j) && SlotOk(t, i);
      forall c | c in t.fibers[j].children ensures ChildOk(t', j, c) {
        assert ChildOk(t, j, c);
      }
      if t.fibers[j].parent.Some? && !Vacant(t, j) {
        assert ParentOk(t, j, t.fibers[j].parent.value);
      }
    }
    forall j: nat, k: nat | j < k < |t'.fibers| ensures !SameBirth(t', j, k) {
      assert !SameBirth(t, j, k);
    }
    SameStacks(t, t');
  }

  lemma ReleaseKeepsInv(t: Table, i: nat)
    requires Inv(t) && i < |t.fibers| && i !in t.free && t.fibers[i].wait.Dead? && !t.fibers[i].t
    requires i in t.lost || t.fibers[i].parent.None?
    ensures Inv(Release(t, i))
  {
    var t' := Release(t, i);
    NoDupAppend(t.free, i);
    assert SlotOk(t, i);
    forall j: nat | j < |t'.fibers| ensures SlotOk(t', j) {
      assert SlotOk(t, j);
      forall c | c in t.fibers[j].children ensures ChildOk(t', j, c) {
        assert ChildOk(t, j, c);
      }
      if t.fibers[j].parent.Some? && !Vacant(t, j) {
        assert ParentOk(t, j, t.fibers[j].parent.value);
      }
    }
    forall j: nat, k: nat | j < k < |t'.fibers| ensures !SameBirth(t', j, k) {
      assert !SameBirth(t, j, k);
    }
    SameStacks(t, t');
  }

  lemma ReapKeepsInv(t: Table, p: nat, k: nat)
    requires Inv(t) && p < |t.fibers| && k < |t.fibers[p].children|
    requires var c := t.fibers[p].children[k]; c < |t.fibers| && t.fibers[c].wait.Dead? && !t.fibers[c].t
    ensures Inv(Reap(t, p, k))
  {
    var f := t.fibers[p];
    var c := f.children[k];
    var t' := Reap(t, p, k);
    assert SlotOk(t, p) && SlotOk(t, c) && ChildOk(t, p, c);
    assert ParentOk(t, c, p);
    SwapRemoveFrontRemoves(f.children, k);
    NoDupAppend(t.free, c);
    forall j: nat | j < |t'.fibers| ensures SlotOk(t', j) {
      assert SlotOk(t, j);
      forall d | d in t'.fibers[j].children ensures ChildOk(t', j, d) {
        assert ChildOk(t, j, d);
      }
      if t.fibers[j].parent.Some? && !Vacant(t', j) {
        assert ParentOk(t, j, t.fibers[j].parent.value);
        assert ParentOk(t', j, t.fibers[j].parent.value);
      }
    }
    forall i: nat, j: nat | i < j < |t'.fibers| ensures !SameBirth(t', i, j) {
      assert !SameBirth(t, i, j);
    }
    SameStacks(t, t');
  }

  lemma LoseSlotKeepsInv(t: Table)
    requires Inv(t)
    ensures Inv(LoseSlot(t)) && forall i: nat :: Vacant(LoseSlot(t), i) <==> Vacant(t, i)
  {
    if t.free != [] {
      var t' := LoseSlot(t);
      NoDupTail(t.free);
      forall j: nat | j < |t'.fibers| ensures SlotOk(t', j) {
        assert SlotOk(t, j);
        forall c | c in t.fibers[j].children ensures ChildOk(t', j, c) {
          assert ChildOk(t, j, c);
        }
        if t.fibers[j].parent.Some? && !Vacant(t, j) {
          assert ParentOk(t, j, t.fibers[j].parent.value);
        }
      }
      forall j: nat, k: nat | j < k < |t'.fibers| ensures !SameBirth(t', j, k) {
        assert !SameBirth(t, j, k);
      }
      SameStacks(t, t');
    }
  }

  lemma NextSlotIsFree(t: Table)
    requires Inv(t)
    ensures if t.free == [] then NextSlot(t) == |t.fibers| else NextSlot(t) < |t.fibers|
    ensures NextSlot(t) < |t.fibers| ==> NextSlot(t) in t.free && SlotOk(t, NextSlot(t))
    ensures NextSlot(t) < |t.fibers| ==> !Alive(t, NextSlot(t)) && t.fibers[NextSlot(t)].stack.None?
    ensures NextSlot(t) !in t.lost
  {
    if t.free != [] {
      assert t.free[0] in t.free;
      assert SlotOk(t, t.free[0]);
    }
  }

  lemma PlaceKeepsStacks(t: Table, f: Fiber)
    requires Inv(t) && f.stack.None?
    ensures NoDup(Place(t, f).stacks) && forall k: nat :: StackOk(Place(t, f), k)
  {
    NextSlotIsFree(t);
    SameStacks(t, Place(t, f));
  }

  lemma PlaceKeepsOthers(t: Table, f: Fiber, j: nat)
    requires Inv(t) && j < |t.fibers| && j != NextSlot(t)
    ensures SlotOk(Place(t, f), j)
  {
    var t' := Place(t, f);
    NextSlotIsFree(t);
    assert SlotOk(t, j);
    if t.free != [] {
      NoDupTail(t.free);
    }
    forall c | c in t.fibers[j].children ensures ChildOk(t', j, c) {
      assert ChildOk(t, j, c);
    }
    if t.fibers[j].parent.Some? && !Vacant(t, j) {
      var p := t.fibers[j].parent.value;
      assert ParentOk(t, j, p) && SlotOk(t, p);
    }
  }

  lemma PlaceKeepsBirths(t: Table, f: Fiber)
    requires Inv(t) && f.birth == t.births
    ensures forall i: nat, j: nat :: i < j < |Place(t, f).fibers| ==> !SameBirth(Place(t, f), i, j)
  {
    var t' := Place(t, f);
    NextSlotIsFree(t);
    forall i: nat, j: nat | i < j < |t'.fibers| ensures !SameBirth(t', i, j) {
      if i < |t.fibers| { assert SlotOk(t, i); }
      if j < |t.fibers| { assert SlotOk(t, j); assert !SameBirth(t, i, j); }
    }
  }

  lemma PlaceKeepsFree(t: Table, f: Fiber)
    requires Inv(t)
    ensures var t' := Place(t, f);
            && NoDup(t'.free) && (forall i :: i in t'.free ==> i < |t'.fibers|) && !Vacant(t', NextSlot(t))
  {
    if t.free != [] {
      NoDupTail(t.free);
    }
  }

  lemma RegisterRootKeepsInv(t: Table, func: bool, param: bool)
    requires Inv(t) && (func ==> param)
    ensures Inv(Register(t, func, param, None)) && !Vacant(Register(t, func, param, None), NextSlot(t))
  {
    var f := NewFiber(func, param, None, t.births);
    var t' := Place(t, f);
    PlaceKeepsFree(t, f);
    PlaceKeepsStacks(t, f);
    PlaceKeepsBirths(t, f);
    NextSlotIsFree(t);
    forall j: nat | j < |t'.fibers| ensures SlotOk(t', j) {
      if j != NextSlot(t) {
        PlaceKeepsOthers(t, f, j);
      }
    }
    assert Register(t, func, param, None) == t';
  }

  lemma RegisterChildKeepsInv(t: Table, p: nat)
    requires Inv(t) && p < |t.fibers| && t.fibers[p].state.Stacked?
    ensures Inv(Register(t, true, true, Some(p))) && !Vacant(Register(t, true, true, Some(p)), NextSlot(t))
    ensures NextSlot(t) != p
  {
    var f := NewFiber(true, true, Some(p), t.births);
    var pos := NextSlot(t);
    var placed := Place(t, f);
    var t' := Register(t, true, true, Some(p));
    assert SlotOk(t, p);
    NextSlotIsFree(t);
    PlaceKeepsFree(t, f);
    PlaceKeepsStacks(t, f);
    PlaceKeepsBirths(t, f);
    var g := placed.fibers[p].(children := placed.fibers[p].children + [pos]);
    assert t' == With(placed, p, g);
    NewChildIsNew(t, p);
    NoDupAppend(t.fibers[p].children, pos);
    forall j: nat | j < |t'.fibers| ensures SlotOk(t', j) {
      RegisterChildSlot(t, p, j);
    }
    forall i: nat, j: nat | i < j < |t'.fibers| ensures !SameBirth(t', i, j) {
      assert !SameBirth(placed, i, j);
    }
    ChildrenDoNotMatterForStacks(placed, t');
  }

  lemma ChildrenDoNotMatterForStacks(t: Table, t': Table)
    requires t'.stacks == t.stacks && t'.made == t.made && t'.away == t.away && |t.fibers| == |t'.fibers|
    requires forall i: nat :: i < |t.fibers| ==> t'.fibers[i].stack == t.fibers[i].stack
    requires forall k: nat :: StackOk(t, k)
    ensures forall k: nat :: StackOk(t', k)
  {
    assert forall i, k :: Holds(t', i, k) <==> Holds(t, i, k);
    forall k: nat ensures StackOk(t', k) {
      assert StackOk(t, k);
    }
  }

  lemma NewChildIsNew(t: Table, p: nat)
    requires Inv(t) && p < |t.fibers|
    ensures NextSlot(t) !in t.fibers[p].children
  {
    assert SlotOk(t, p);
    NextSlotIsFree(t);
    forall c | c in t.fibers[p].children ensures c != NextSlot(t) {
      assert ChildOk(t, p, c);
    }
  }

  lemma RegisterChildSlot(t: Table, p: nat, j: nat)
    requires Inv(t) && p < |t.fibers| && t.fibers[p].state.Stacked? && NextSlot(t) != p
    requires NextSlot(t) !in t.fibers[p].children && NoDup(t.fibers[p].children + [NextSlot(t)])
    requires !Vacant(Register(t, true, true, Some(p)), NextSlot(t))
    requires j < |Register(t, true, true, Some(p)).fibers|
    ensures SlotOk(Register(t, true, true, Some(p)), j)
  {
    var f := NewFiber(true, true, Some(p), t.births);
    var pos := NextSlot(t);
    var placed := Place(t, f);
    var t' := Register(t, true, true, Some(p));
    assert SlotOk(t, p);
    if j == pos {
      assert t'.fibers[p].children[|t.fibers[p].children|] == pos;
      assert ParentOk(t', pos, p);
    } else {
      PlaceKeepsOthers(t, f, j);
      forall c | c in t'.fibers[j].children ensures ChildOk(t', j, c) {
        if c in placed.fibers[j].children {
          assert ChildOk(placed, j, c);
        }
      }
      if placed.fibers[j].parent.Some? && !Vacant(placed, j) {
        var q := placed.fibers[j].parent.value;
        assert ParentOk(placed, j, q);
        assert ParentOk(t', j, q);
      }
    }
  }

  lemma LaunchKeepsInv(t: Table, i: nat)
    requires Inv(t) && i < |t.fibers| && t.fibers[i].wait.NotStarted? && t.fibers[i].func
    requires t.fibers[i].connecting ==> !t.fibers[i].wtoken
    ensures Inv(Launch(t, i)) && !Vacant(t, i)
  {
    var t' := Launch(t, i);
    assert SlotOk(t, i);
    forall j: nat | j < |t'.fibers| ensures SlotOk(t', j) {
      assert SlotOk(t, j);
      forall c | c in t.fibers[j].children ensures ChildOk(t', j, c) {
        assert ChildOk(t, j, c);
      }
      if t.fibers[j].parent.Some? && !Vacant(t, j) {
        assert ParentOk(t, j, t.fibers[j].parent.value);
      }
    }
    forall j: nat, k: nat | j < k < |t'.fibers| ensures !SameBirth(t', j, k) {
      assert !SameBirth(t, j, k);
    }
    LaunchKeepsStacks(t, i);
  }

  lemma LaunchKeepsStacks(t: Table, i: nat)
    requires Inv(t) && i < |t.fibers| && t.fibers[i].stack.None?
    ensures NoDup(Launch(t, i).stacks) && forall k: nat :: StackOk(Launch(t, i), k)
  {
    var t' := Launch(t, i);
    var taken := t'.fibers[i].stack.value;
    if t.stacks != [] {
      NoDupTail(t.stacks);
    }
    assert StackOk(t, taken);
    assert forall j, k :: Holds(t', j, k) <==> Holds(t, j, k) || (j == i && k == taken);
    assert Holds(t', i, taken);
    forall k: nat ensures StackOk(t', k) {
      assert StackOk(t, k);
    }
  }

  lemma UnstackKeepsInv(t: Table, i: nat)
    requires Inv(t) && i < |t.fibers| && t.fibers[i].wait.Dead? && t.fibers[i].t
    ensures t.fibers[i].stack.Some? && !Vacant(t, i)
    ensures Inv(Unstack(t, i))
  {
    assert SlotOk(t, i);
    var t' := Unstack(t, i);
    forall j: nat | j < |t'.fibers| ensures SlotOk(t', j) {
      assert SlotOk(t, j);
      forall c | c in t.fibers[j].children ensures ChildOk(t', j, c) {
        assert ChildOk(t, j, c);
      }
      if t.fibers[j].parent.Some? && !Vacant(t, j) {
        assert ParentOk(t, j, t.fibers[j].parent.value);
      }
    }
    forall j: nat, k: nat | j < k < |t'.fibers| ensures !SameBirth(t', j, k) {
      assert !SameBirth(t, j, k);
    }
    UnstackKeepsStacks(t, i);
  }

  lemma UnstackKeepsStacks(t: Table, i: nat)
    requires Inv(t) && i < |t.fibers| && t.fibers[i].stack.Some?
    ensures NoDup(Unstack(t, i).stacks) && forall k: nat :: StackOk(Unstack(t, i), k)
  {
    var t' := Unstack(t, i);
    var given := t.fibers[i].stack.value;
    assert StackOk(t, given) && Holds(t, i, given);
    ConsNoDup(given, t.stacks);
    assert forall j, k :: Holds(t', j, k) <==> Holds(t, j, k) && j != i;
    forall k: nat ensures StackOk(t', k) {
      assert StackOk(t, k);
      if k != given && exists j :: Holds(t, j, k) {
        var j :| Holds(t, j, k);
        assert Holds(t', j, k);
      }
    }
  }

  // Undoes a registration that turned out to fail: the parent forgets its newest child.
  function Disown(t: Table, pos: nat): Table
    requires pos < |t.fibers|
    requires t.fibers[pos].parent.Some? ==> t.fibers[pos].parent.value < |t.fibers| && t.fibers[t.fibers[pos].parent.value].children != []
  {
    var f := t.fibers[pos];
    var t1 :=
      if f.parent.None? then t
      else
        var p := t.fibers[f.parent.value];
        With(t, f.parent.value, p.(children := p.children[..|p.children| - 1]));
    With(t1, pos, t1.fibers[pos].(param := false, parent := None, wait := Dead))
  }

  lemma DisownKeepsInv(t: Table, pos: nat)
    requires Inv(t) && pos < |t.fibers| && t.fibers[pos].wait.NotStarted?
    requires t.fibers[pos].parent.Some? ==>
      && t.fibers[pos].parent.value < |t.fibers|
      && var cs := t.fibers[t.fibers[pos].parent.value].children; cs != [] && cs[|cs| - 1] == pos
    ensures Inv(Disown(t, pos)) && !Vacant(Disown(t, pos), pos)
  {
    var t' := Disown(t, pos);
    assert SlotOk(t, pos);
    forall j: nat | j < |t'.fibers| ensures SlotOk(t', j) {
      DisownSlot(t, pos, j);
    }
    forall j: nat, k: nat | j < k < |t'.fibers| ensures !SameBirth(t', j, k) {
      assert !SameBirth(t, j, k);
    }
    SameStacks(t, t');
  }

  lemma DropLast(s: seq<nat>)
    requires NoDup(s) && s != []
    ensures NoDup(s[..|s| - 1]) && forall y :: y in s[..|s| - 1] <==> y in s && y != s[|s| - 1]
  {
    var r := s[..|s| - 1];
    forall i: nat, j: nat | i < j < |r| ensures Differ(r, i, j) {
      assert Differ(s, i, j);
    }
    forall i: nat | i < |r| ensures r[i] != s[|s| - 1] {
      assert Differ(s, i, |s| - 1);
    }
    assert s == r + [s[|s| - 1]];
  }

  lemma DisownSlot(t: Table, pos: nat, j: nat)
    requires Inv(t) && pos < |t.fibers| && t.fibers[pos].wait.NotStarted? && j < |t.fibers|
    requires t.fibers[pos].parent.Some? ==>
      && t.fibers[pos].parent.value < |t.fibers|
      && var cs := t.fibers[t.fibers[pos].parent.value].children; cs != [] && cs[|cs| - 1] == pos
    ensures SlotOk(Disown(t, pos), j)
  {
    var t' := Disown(t, pos);
    assert SlotOk(t, pos) && SlotOk(t, j);
    if t.fibers[pos].parent.Some? {
      var p := t.fibers[pos].parent.value;
      assert SlotOk(t, p);
      assert ParentOk(t, pos, p);
      DropLast(t.fibers[p].children);
    }
    forall c | c in t'.fibers[j].children ensures ChildOk(t', j, c) {
      assert ChildOk(t, j, c);
    }
    if t'.fibers[j].parent.Some? && !Vacant(t', j) {
      var q := t.fibers[j].parent.value;
      assert ParentOk(t, j, q);
      assert ParentOk(t', j, q);
    }
  }
}
