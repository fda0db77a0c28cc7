// The hashed timer wheel as the program keeps it: a vector of slots, each the head of a doubly
// linked list threaded by index through a slab, and a cursor that survives between polls.
module Wheel {
  import opened Wrappers
  import opened Sequences
  import opened Bits
  import opened WheelSpec
  import opened WheelTheorems

  const EMPTY: Token := USIZE_MAX

  datatype Slot = Slot(head: Token, nextTimeout: Option<nat>)

  datatype Entry =
    | Reserved
    | Timeout(task: nat, when: nat, wheelIdx: nat, prev: Token, next: Token)

  type Slab = map<Token, Entry>

  // ---------- reading the representation ----------

  function First(s: seq<Token>): Token {
    if s == [] then EMPTY else s[0]
  }

  function Nexts(slots: seq<Slot>): (s: seq<Option<nat>>)
    ensures |s| == |slots| && forall i :: 0 <= i < |s| ==> s[i] == slots[i].nextTimeout
  {
    seq(|slots|, i requires 0 <= i < |slots| => slots[i].nextTimeout)
  }

  function TimersOf(slab: Slab): map<Token, Timer> {
    map t | t in slab && slab[t].Timeout? :: Timer(slab[t].task, slab[t].when, slab[t].wheelIdx)
  }

  function ReservedOf(slab: Slab): set<Token> {
    set t | t in slab && slab[t].Reserved?
  }

  // The entry at position j of a list points back to position j - 1 and forward to j + 1.
  ghost predicate LinkedAt(slab: Slab, s: seq<Token>, j: nat)
    requires j < |s|
  {
    && s[j] in slab && slab[s[j]].Timeout?
    && slab[s[j]].prev == (if j == 0 then EMPTY else s[j - 1])
    && slab[s[j]].next == (if j + 1 < |s| then s[j + 1] else EMPTY)
  }

  ghost predicate Linked(slab: Slab, s: seq<Token>) {
    forall j: nat :: j < |s| ==> LinkedAt(slab, s, j)
  }

  ghost predicate Represents(slots: seq<Slot>, slab: Slab, lists: seq<seq<Token>>) {
    && |slots| == |lists|
    && EMPTY !in slab
    && forall i :: 0 <= i < |lists| ==> slots[i].head == First(lists[i]) && Linked(slab, lists[i])
  }

  // ---------- pushing and unlinking, on values ----------

  ghost predicate IsTimeout(slab: Slab, tok: Token) {
    tok in slab && slab[tok].Timeout?
  }

  function Push(slab: Slab, tok: Token, e: Entry): Slab
    requires e.Timeout? && (e.next != EMPTY ==> IsTimeout(slab, e.next) && e.next != tok)
  {
    var inserted := slab[tok := e];
    if e.next != EMPTY then inserted[e.next := inserted[e.next].(prev := tok)] else inserted
  }

  ghost predicate Bypassable(slab: Slab, tok: Token) {
    && IsTimeout(slab, tok)
    && (slab[tok].prev != EMPTY ==> IsTimeout(slab, slab[tok].prev) && slab[tok].prev != tok)
    && (slab[tok].next != EMPTY ==> IsTimeout(slab, slab[tok].next) && slab[tok].next != tok)
  }

  function Bypass(slab: Slab, tok: Token): Slab
    requires Bypassable(slab, tok)
  {
    var e := slab[tok];
    var removed := slab - {tok};
    var joined := if e.prev == EMPTY then removed else removed[e.prev := removed[e.prev].(next := e.next)];
    if e.next == EMPTY then joined else joined[e.next := joined[e.next].(prev := e.prev)]
  }

  lemma PushLinks(slab: Slab, s: seq<Token>, tok: Token, e: Entry)
    requires Linked(slab, s) && NoDup(s) && tok !in s && EMPTY !in slab && tok != EMPTY
    requires e.Timeout? && e.prev == EMPTY && e.next == First(s)
    ensures e.next != EMPTY ==> IsTimeout(slab, e.next) && e.next != tok
    ensures Linked(Push(slab, tok, e), [tok] + s)
    ensures TimersOf(Push(slab, tok, e)) == TimersOf(slab)[tok := Timer(e.task, e.when, e.wheelIdx)]
    ensures ReservedOf(Push(slab, tok, e)) == ReservedOf(slab) - {tok}
    ensures Push(slab, tok, e).Keys == slab.Keys + {tok}
  {
    if s != [] {
      assert LinkedAt(slab, s, 0);
    }
    forall j: nat | j < |[tok] + s| ensures LinkedAt(Push(slab, tok, e), [tok] + s, j) {
      if j > 0 {
        assert LinkedAt(slab, s, j - 1);
        assert j > 1 ==> Differ(s, 0, j - 1);
      }
    }
  }

  lemma PushElsewhere(slab: Slab, s: seq<Token>, tok: Token, e: Entry, other: seq<Token>)
    requires e.Timeout? && (e.next != EMPTY ==> IsTimeout(slab, e.next) && e.next != tok)
    requires Linked(slab, other) && tok !in other && e.next !in other
    ensures Linked(Push(slab, tok, e), other)
  {
    forall j: nat | j < |other| ensures LinkedAt(Push(slab, tok, e), other, j) {
      assert LinkedAt(slab, other, j);
    }
  }

  lemma {:induction false} BypassLinks(slab: Slab, s: seq<Token>, k: nat)
    requires Linked(slab, s) && NoDup(s) && k < |s| && EMPTY !in slab
    ensures Bypassable(slab, s[k]) && (slab[s[k]].prev == EMPTY <==> k == 0)
    ensures Linked(Bypass(slab, s[k]), s[..k] + s[k + 1..])
    ensures TimersOf(Bypass(slab, s[k])) == TimersOf(slab) - {s[k]}
    ensures ReservedOf(Bypass(slab, s[k])) == ReservedOf(slab)
    ensures Bypass(slab, s[k]).Keys == slab.Keys - {s[k]}
  {
    assert LinkedAt(slab, s, k);
    if k > 0 {
      assert LinkedAt(slab, s, k - 1) && Differ(s, k - 1, k);
    }
    if k + 1 < |s| {
      assert LinkedAt(slab, s, k + 1) && Differ(s, k, k + 1);
    }
    var s' := s[..k] + s[k + 1..];
    forall j: nat | j < |s'| ensures LinkedAt(Bypass(slab, s[k]), s', j) {
      BypassLinksAt(slab, s, k, j);
    }
  }

  lemma BypassLinksAt(slab: Slab, s: seq<Token>, k: nat, j: nat)
    requires Linked(slab, s) && NoDup(s) && k < |s| && j < |s| - 1 && EMPTY !in slab
    requires Bypassable(slab, s[k])
    ensures LinkedAt(Bypass(slab, s[k]), s[..k] + s[k + 1..], j)
  {
    assert LinkedAt(slab, s, k);
    var i := if j < k then j else j + 1;
    assert LinkedAt(slab, s, i);
    assert Differ(s, if i < k then i else k, if i < k then k else i);
    assert (s[..k] + s[k + 1..])[j] == s[i];
    if k > 0 && i != k - 1 {
      assert Differ(s, if i < k then i else k - 1, if i < k then k - 1 else i);
    }
    if k + 1 < |s| && i != k + 1 {
      assert Differ(s, if i < k then i else k + 1, if i < k then k + 1 else i);
    }
  }

  lemma BypassElsewhere(slab: Slab, tok: Token, other: seq<Token>)
    requires Bypassable(slab, tok)
    requires Linked(slab, other) && tok !in other && slab[tok].prev !in other && slab[tok].next !in other
    ensures Linked(Bypass(slab, tok), other)
  {
    forall j: nat | j < |other| ensures LinkedAt(Bypass(slab, tok), other, j) {
      assert LinkedAt(slab, other, j);
    }
  }

  // Fewer tokens than the capacity leave one of the indices below it unused.
  lemma {:induction false} FreeIndex(used: set<Token>, capacity: nat)
    requires |used| < capacity
    ensures exists t: Token :: t < capacity && t !in used
  {
    if capacity - 1 in used {
      assert |used - {capacity - 1}| == |used| - 1;
      FreeIndex(used - {capacity - 1}, capacity - 1);
      var t: Token :| t < capacity - 1 && t !in used - {capacity - 1};
      assert t < capacity && t !in used;
    } else {
      assert capacity - 1 < capacity && capacity - 1 !in used;
    }
  }

  // ---------- the fields of the wheel, and what they stand for ----------

  datatype Rep = Rep(
    tickMs: nat, slots: seq<Slot>, slab: Slab, cur: nat, cursor: Token,
    lists: seq<seq<Token>>, passed: seq<Token>, left: seq<Token>)

  // The part of the representation that the program does not store.
  datatype Threads = Threads(lists: seq<seq<Token>>, passed: seq<Token>, left: seq<Token>)

  function AbsOf(r: Rep): Model {
    Model(r.tickMs, r.lists, Nexts(r.slots), TimersOf(r.slab), ReservedOf(r.slab), r.cur, r.passed, r.left)
  }

  ghost predicate RepOk(r: Rep) {
    Represents(r.slots, r.slab, r.lists) && r.cursor == First(r.left) && Inv(AbsOf(r))
  }

  ghost predicate WithinCapacity(slab: Slab, capacity: nat) {
    |slab| <= capacity && forall t :: t in slab ==> t < capacity
  }

  // Every entry of the slab is an armed or a reserved token.
  lemma TakenIs(r: Rep)
    ensures Taken(AbsOf(r)) == |r.slab|
  {
    var slab := r.slab;
    var armed := TimersOf(slab).Keys;
    assert armed !! ReservedOf(slab) && armed + ReservedOf(slab) == slab.Keys;
    assert |armed + ReservedOf(slab)| == |armed| + |ReservedOf(slab)|;
  }

  lemma StillWithinCapacity(slab: Slab, slab': Slab, capacity: nat)
    requires WithinCapacity(slab, capacity) && slab'.Keys <= slab.Keys
    ensures WithinCapacity(slab', capacity)
  {
    assert slab.Keys == slab'.Keys + (slab.Keys - slab'.Keys);
    assert |slab'| == |slab'.Keys| && |slab| == |slab.Keys|;
  }

  lemma Listed(r: Rep, i: nat)
    requires RepOk(r) && i < |r.lists|
    ensures NoDup(r.lists[i]) && Linked(r.slab, r.lists[i])
    ensures forall t :: t in r.lists[i] ==> IsTimeout(r.slab, t) && r.slab[t].wheelIdx == i
    ensures r.slots[i].head == First(r.lists[i])
  {
    assert forall t :: t in r.lists[i] ==> t in AbsOf(r).timers;
  }

  lemma InItsList(r: Rep, tok: Token)
    requires RepOk(r) && IsTimeout(r.slab, tok)
    ensures r.slab[tok].wheelIdx < |r.lists| && tok in r.lists[r.slab[tok].wheelIdx]
  {
    assert tok in AbsOf(r).timers;
  }

  lemma ReserveRep(r: Rep, tok: Token)
    requires RepOk(r) && tok !in r.slab && tok != EMPTY
    ensures var r' := r.(slab := r.slab[tok := Reserved]);
            RepOk(r') && AbsOf(r') == Reserve(AbsOf(r), tok)
    ensures tok !in AbsOf(r).timers && tok !in AbsOf(r).reserved
  {
    var r' := r.(slab := r.slab[tok := Reserved]);
    SameModel(AbsOf(r'), Reserve(AbsOf(r), tok));
    ReserveKeepsInv(AbsOf(r), tok);
    forall i | 0 <= i < |r.lists| ensures Linked(r'.slab, r.lists[i]) {
      forall j: nat | j < |r.lists[i]| ensures LinkedAt(r'.slab, r.lists[i], j) {
        assert LinkedAt(r.slab, r.lists[i], j);
      }
    }
  }

  // The entry that set_timeout pushes on the front of its slot's list.
  function NewEntry(r: Rep, at: nat, task: nat): Entry
    requires RepOk(r)
  {
    var tick := EffectiveTick(AbsOf(r), at);
    var idx := tick % |r.slots|;
    Timeout(task, TickStart(r.tickMs, tick), idx, EMPTY, r.slots[idx].head)
  }

  function ArmedRep(r: Rep, tok: Token, at: nat, task: nat): Rep
    requires RepOk(r)
    requires var e := NewEntry(r, at, task); e.next != EMPTY ==> IsTimeout(r.slab, e.next) && e.next != tok
  {
    var e := NewEntry(r, at, task);
    var idx := e.wheelIdx;
    r.(slots := r.slots[idx := Slot(tok, Lower(r.slots[idx].nextTimeout, e.when))],
       slab := Push(r.slab, tok, e),
       lists := r.lists[idx := [tok] + r.lists[idx]],
       passed := if idx == r.cur % |r.slots| then [tok] + r.passed else r.passed)
  }

  lemma ArmRepReady(r: Rep, tok: Token, at: nat, task: nat)
    requires RepOk(r) && tok in r.slab && r.slab[tok].Reserved?
    ensures var e := NewEntry(r, at, task); e.next != EMPTY ==> IsTimeout(r.slab, e.next) && e.next != tok
    ensures tok !in r.lists[NewEntry(r, at, task).wheelIdx]
  {
    Listed(r, NewEntry(r, at, task).wheelIdx);
  }

  lemma ArmRep(r: Rep, tok: Token, at: nat, task: nat)
    requires RepOk(r) && tok in r.slab && r.slab[tok].Reserved?
    ensures var e := NewEntry(r, at, task); e.next != EMPTY ==> IsTimeout(r.slab, e.next) && e.next != tok
    ensures RepOk(ArmedRep(r, tok, at, task)) && AbsOf(ArmedRep(r, tok, at, task)) == Arm(AbsOf(r), tok, at, task)
    ensures ArmedRep(r, tok, at, task).slab.Keys == r.slab.Keys
  {
    ArmRepReady(r, tok, at, task);
    var e := NewEntry(r, at, task);
    var s := r.lists[e.wheelIdx];
    var r' := ArmedRep(r, tok, at, task);
    Listed(r, e.wheelIdx);
    PushLinks(r.slab, s, tok, e);
    SameModel(AbsOf(r'), Arm(AbsOf(r), tok, at, task));
    ArmKeepsInv(AbsOf(r), tok, at, task);
    ArmRepresents(r, tok, at, task);
  }

  lemma ArmRepresents(r: Rep, tok: Token, at: nat, task: nat)
    requires RepOk(r) && tok in r.slab && r.slab[tok].Reserved?
    requires var e := NewEntry(r, at, task); e.next != EMPTY ==> IsTimeout(r.slab, e.next) && e.next != tok
    ensures var r' := ArmedRep(r, tok, at, task); Represents(r'.slots, r'.slab, r'.lists)
  {
    var e := NewEntry(r, at, task);
    var r' := ArmedRep(r, tok, at, task);
    ArmRepReady(r, tok, at, task);
    Listed(r, e.wheelIdx);
    PushLinks(r.slab, r.lists[e.wheelIdx], tok, e);
    forall i | 0 <= i < |r.lists| ensures r'.slots[i].head == First(r'.lists[i]) && Linked(r'.slab, r'.lists[i]) {
      Listed(r, i);
      if i != e.wheelIdx {
        PushElsewhere(r.slab, r.lists[e.wheelIdx], tok, e, r.lists[i]);
      }
    }
  }

  // The fields after the entry of a token is unlinked and taken out of the slab.
  function RemovedRep(r: Rep, tok: Token): Rep
    requires RepOk(r) && (IsTimeout(r.slab, tok) ==> Bypassable(r.slab, tok) && r.slab[tok].wheelIdx < |r.slots|)
  {
    if tok !in r.slab then r
    else if r.slab[tok].Reserved? then r.(slab := r.slab - {tok})
    else
      var e := r.slab[tok];
      InItsList(r, tok);
      r.(slots := if e.prev == EMPTY then r.slots[e.wheelIdx := r.slots[e.wheelIdx].(head := e.next)] else r.slots,
         slab := Bypass(r.slab, tok),
         cursor := if r.cursor == tok then e.next else r.cursor,
         lists := r.lists[e.wheelIdx := Without(r.lists[e.wheelIdx], tok)],
         passed := Without(r.passed, tok),
         left := Without(r.left, tok))
  }

  // Removes a node from its linked list: its neighbours, or the slot's head, take over its links.
  method Unlink(slot: Slot, slab: Slab, tok: Token) returns (slot': Slot, slab': Slab)
    requires Bypassable(slab, tok)
    ensures slab' == Bypass(slab, tok)
    ensures slot' == if slab[tok].prev == EMPTY then slot.(head := slab[tok].next) else slot
  {
    var entry := slab[tok];
    slot', slab' := slot, slab - {tok};
    if entry.prev == EMPTY {
      slot' := slot'.(head := entry.next);
    } else {
      slab' := slab'[entry.prev := slab'[entry.prev].(next := entry.next)];
    }
    if entry.next != EMPTY {
      slab' := slab'[entry.next := slab'[entry.next].(prev := entry.prev)];
    }
  }

  lemma RemoveRepReady(r: Rep, tok: Token)
    requires RepOk(r) && IsTimeout(r.slab, tok)
    ensures Bypassable(r.slab, tok) && r.slab[tok].wheelIdx < |r.slots|
    ensures tok != EMPTY
    ensures TimersOf(Bypass(r.slab, tok)) == TimersOf(r.slab) - {tok}
    ensures ReservedOf(Bypass(r.slab, tok)) == ReservedOf(r.slab)
    ensures Bypass(r.slab, tok).Keys == r.slab.Keys - {tok}
  {
    InItsList(r, tok);
    var s := r.lists[r.slab[tok].wheelIdx];
    Listed(r, r.slab[tok].wheelIdx);
    var k: nat :| k < |s| && s[k] == tok;
    BypassLinks(r.slab, s, k);
  }

  lemma RemoveRepresents(r: Rep, tok: Token)
    requires RepOk(r) && IsTimeout(r.slab, tok) && Bypassable(r.slab, tok) && r.slab[tok].wheelIdx < |r.slots|
    ensures var r' := RemovedRep(r, tok); Represents(r'.slots, r'.slab, r'.lists)
  {
    InItsList(r, tok);
    RemoveRepReady(r, tok);
    var idx := r.slab[tok].wheelIdx;
    var s := r.lists[idx];
    Listed(r, idx);
    var k: nat :| k < |s| && s[k] == tok;
    BypassLinks(r.slab, s, k);
    WithoutAt(s, k);
    assert LinkedAt(r.slab, s, k);
    var r' := RemovedRep(r, tok);
    forall i | 0 <= i < |r.lists| ensures r'.slots[i].head == First(r'.lists[i]) && Linked(r'.slab, r'.lists[i]) {
      Listed(r, i);
      if i != idx {
        assert r.slab[tok].prev == EMPTY || r.slab[tok].prev in s;
        assert r.slab[tok].next == EMPTY || r.slab[tok].next in s;
        BypassElsewhere(r.slab, tok, r.lists[i]);
      }
    }
  }

  // If the removed entry is under the cursor, its successor comes under the cursor.
  lemma CursorAfterRemoval(r: Rep, tok: Token)
    requires RepOk(r) && IsTimeout(r.slab, tok) && tok != EMPTY
    ensures First(Without(r.left, tok)) == if r.cursor == tok then r.slab[tok].next else r.cursor
  {
    if r.left != [] {
      NextUnderCursor(r);
    }
  }

  lemma NextUnderCursor(r: Rep)
    requires RepOk(r) && r.left != []
    ensures r.cursor == r.left[0] && IsTimeout(r.slab, r.cursor) && r.slab[r.cursor].next == First(r.left[1..])
    ensures r.cursor == r.slots[r.cur % |r.slots|].head <==> r.passed == []
    ensures r.cursor != EMPTY
  {
    var idx := r.cur % |r.slots|;
    var whole := r.lists[idx];
    Listed(r, idx);
    assert whole == r.passed + r.left;
    assert LinkedAt(r.slab, whole, |r.passed|);
    if r.passed != [] {
      assert Differ(whole, 0, |r.passed|);
    }
  }

  lemma RemoveRep(r: Rep, tok: Token) returns (r': Rep)
    requires RepOk(r)
    ensures IsTimeout(r.slab, tok) ==> Bypassable(r.slab, tok) && r.slab[tok].wheelIdx < |r.slots|
    ensures r' == RemovedRep(r, tok) && RepOk(r') && AbsOf(r') == Remove(AbsOf(r), tok)
    ensures r'.slab.Keys == r.slab.Keys - {tok}
    ensures r'.tickMs == r.tickMs && r'.cur == r.cur && |r'.slots| == |r.slots|
    ensures IsTimeout(r.slab, tok) ==>
      var e := r.slab[tok];
      var slot := r.slots[e.wheelIdx];
      && r'.slab == Bypass(r.slab, tok)
      && r'.slots == r.slots[e.wheelIdx := if e.prev == EMPTY then slot.(head := e.next) else slot]
      && r'.cursor == if r.cursor == tok then e.next else r.cursor
  {
    if IsTimeout(r.slab, tok) {
      RemoveRepReady(r, tok);
      RemoveRepresents(r, tok);
      CursorAfterRemoval(r, tok);
    } else if tok in r.slab {
      ReservedRemoved(r, tok);
    }
    r' := RemovedRep(r, tok);
    SameModel(AbsOf(r'), Remove(AbsOf(r), tok));
    RemoveKeepsInv(AbsOf(r), tok);
  }

  lemma ReservedRemoved(r: Rep, tok: Token)
    requires RepOk(r) && tok in r.slab && r.slab[tok].Reserved?
    ensures Represents(r.slots, r.slab - {tok}, r.lists)
  {
    forall i | 0 <= i < |r.lists| ensures Linked(r.slab - {tok}, r.lists[i]) {
      forall j: nat | j < |r.lists[i]| ensures LinkedAt(r.slab - {tok}, r.lists[i], j) {
        assert LinkedAt(r.slab, r.lists[i], j);
      }
    }
  }

  // The fields at the next tick.
  function AdvancedRep(r: Rep): Rep
    requires RepOk(r)
  {
    var idx := r.cur % |r.slots|;
    var idx' := (r.cur + 1) % |r.slots|;
    r.(slots := if r.slots[idx].head == EMPTY then r.slots[idx := r.slots[idx].(nextTimeout := None)] else r.slots,
       cur := r.cur + 1, cursor := r.slots[idx'].head, passed := [], left := r.lists[idx'])
  }

  lemma AdvanceRep(r: Rep)
    requires RepOk(r) && r.left == []
    ensures RepOk(AdvancedRep(r)) && AbsOf(AdvancedRep(r)) == Advance(AbsOf(r))
  {
    AdvanceKeepsInv(AbsOf(r));
    AdvanceAbs(r);
    Listed(r, (r.cur + 1) % |r.slots|);
  }

  lemma AdvanceAbs(r: Rep)
    requires RepOk(r)
    ensures AbsOf(AdvancedRep(r)) == Advance(AbsOf(r))
  {
    var idx := r.cur % |r.slots|;
    Listed(r, idx);
    if r.lists[idx] != [] {
      assert r.lists[idx][0] in r.lists[idx];
    }
    SameModel(AbsOf(AdvancedRep(r)), Advance(AbsOf(r)));
  }

  // The fields after the cursor has stepped over the entry under it, before the minimum is restored.
  function SteppedRep(r: Rep): Rep
    requires RepOk(r) && r.left != [] && IsTimeout(r.slab, r.cursor)
  {
    var idx := r.cur % |r.slots|;
    r.(slots := if r.cursor == r.slots[idx].head then r.slots[idx := r.slots[idx].(nextTimeout := None)] else r.slots,
       cursor := r.slab[r.cursor].next, passed := r.passed + [r.left[0]], left := r.left[1..])
  }

  function StepCursor(m: Model): Model
    requires Inv(m) && m.left != []
  {
    ClearAtHead(m).(passed := m.passed + [m.left[0]], left := m.left[1..])
  }

  lemma StepRep(r: Rep)
    requires RepOk(r) && r.left != []
    ensures IsTimeout(r.slab, r.cursor)
    ensures RepOk(SteppedRep(r)) && AbsOf(SteppedRep(r)) == StepCursor(AbsOf(r))
  {
    NextUnderCursor(r);
    SameModel(AbsOf(SteppedRep(r)), StepCursor(AbsOf(r)));
    StepKeepsInv(AbsOf(r));
  }

  lemma StepKeepsInv(m: Model)
    requires Inv(m) && m.left != []
    ensures Inv(StepCursor(m))
  {
    ClearKeepsInv(m);
    assert m.passed + m.left == (m.passed + [m.left[0]]) + m.left[1..];
  }

  // Stepping the cursor on before removing the entry is the same as removing it under the cursor.
  lemma FireAfterStep(m: Model)
    requires Inv(m) && m.left != [] && Inv(StepCursor(m))
    ensures Remove(StepCursor(m), m.left[0]) == Fire(m)
  {
    ClearKeepsInv(m);
    var tok := m.left[0];
    LeftIsArmed(m);
    NoDupTail(m.left);
    WithoutAbsent(m.left[1..], tok);
    WithoutAbsent(m.passed, tok);
    assert NoDup(m.passed + [tok]) by {
      LeftIsArmed(StepCursor(m));
    }
    WithoutConcat(m.passed, [tok], tok);
    SameModel(Remove(StepCursor(m), tok), Fire(m));
  }

  lemma EmptyCursor(r: Rep)
    requires RepOk(r)
    ensures r.cursor == EMPTY <==> r.left == []
    ensures |r.lists| == |r.slots|
  {
    if r.left != [] {
      NextUnderCursor(r);
    }
  }

  // One turn of the polling loop, in terms of the fields.
  lemma PollUnfolds(r: Rep, now: nat)
    requires RepOk(r) && r.cur <= now
    ensures r.cursor == EMPTY ==> Inv(Advance(AbsOf(r))) && Advance(AbsOf(r)).timers == AbsOf(r).timers
    ensures r.cursor == EMPTY ==> Poll(AbsOf(r), now) == Poll(Advance(AbsOf(r)), now)
    ensures r.cursor != EMPTY ==> r.left != [] && IsTimeout(r.slab, r.cursor) && Inv(StepCursor(AbsOf(r)))
    ensures r.cursor != EMPTY ==> Skip(AbsOf(r)).timers == AbsOf(r).timers && r.cursor in AbsOf(r).timers
    ensures r.cursor != EMPTY ==> AbsOf(r).timers[r.cursor].task == r.slab[r.cursor].task
    ensures r.cursor != EMPTY ==>
              if TimeToTicks(r.tickMs, r.slab[r.cursor].when) <= now then
                Poll(AbsOf(r), now) == (Remove(StepCursor(AbsOf(r)), r.cursor), Some(r.cursor))
              else
                Inv(Skip(AbsOf(r))) && Poll(AbsOf(r), now) == Poll(Skip(AbsOf(r)), now)
  {
    var m := AbsOf(r);
    EmptyCursor(r);
    if r.left == [] {
      AdvanceKeepsInv(m);
    } else {
      NextUnderCursor(r);
      StepKeepsInv(m);
      FireAfterStep(m);
      SkipKeepsInv(m);
      assert m.timers[r.cursor].when == r.slab[r.cursor].when;
    }
  }

  // The fields after the minimum is restored for the entry stepped over.
  lemma SkipRep(r: Rep, when: nat)
    requires RepOk(r) && r.left != [] && IsTimeout(r.slab, r.cursor) && when == r.slab[r.cursor].when
    requires RepOk(SteppedRep(r)) && AbsOf(SteppedRep(r)) == StepCursor(AbsOf(r))
    ensures var r1 := SteppedRep(r);
            var idx := r.cur % |r.slots|;
            var r2 := r1.(slots := r1.slots[idx := r1.slots[idx].(nextTimeout := Lower(r1.slots[idx].nextTimeout, when))]);
            RepOk(r2) && AbsOf(r2) == Skip(AbsOf(r))
  {
    var r1 := SteppedRep(r);
    var idx := r.cur % |r.slots|;
    var r2 := r1.(slots := r1.slots[idx := r1.slots[idx].(nextTimeout := Lower(r1.slots[idx].nextTimeout, when))]);
    NextUnderCursor(r);
    SameModel(AbsOf(r2), Skip(AbsOf(r)));
    SkipKeepsInv(AbsOf(r));
  }

  // ---------- the wheel ----------

  class Wheel {
    const tickMs: nat
    const mask: nat
    const maxCapacity: nat
    var slots: seq<Slot>
    var slab: Slab
    var capacity: nat
    var curWheelTick: nat
    var curSlabIdx: Token

    ghost var threads: Threads

    ghost function Fields(): Rep
      reads this
    {
      Rep(tickMs, slots, slab, curWheelTick, curSlabIdx, threads.lists, threads.passed, threads.left)
    }

    ghost function Abs(): Model
      reads this
    {
      AbsOf(Fields())
    }

    ghost predicate Valid()
      reads this
    {
      && |slots| == mask + 1 && And(mask + 1, mask) == 0
      && RepOk(Fields())
      && WithinCapacity(slab, capacity) && capacity <= maxCapacity <= USIZE_MAX
    }

    constructor (tickMs: nat, numSlots: nat, initialCapacity: nat, maxCapacity: nat)
      requires tickMs > 0 && numSlots > 0 && And(numSlots, numSlots - 1) == 0
      requires initialCapacity <= maxCapacity <= USIZE_MAX
      ensures Valid() && Abs() == Create(tickMs, numSlots)
      ensures slab == map[] && slots == Repeat(Slot(USIZE_MAX, None), numSlots) && curWheelTick == 0 && this.tickMs == tickMs
      ensures capacity == initialCapacity && this.maxCapacity == maxCapacity
    {
      this.tickMs, mask, this.maxCapacity := tickMs, numSlots - 1, maxCapacity;
      slots := Repeat(Slot(EMPTY, None), numSlots);
      slab, capacity := map[], initialCapacity;
      curWheelTick, curSlabIdx := 0, EMPTY;
      threads := Threads(Repeat([], numSlots), [], []);
      new;
      CreateKeepsInv(tickMs, numSlots);
      SameModel(Abs(), Create(tickMs, numSlots));
    }

    function TicksToWheelIdx(ticks: nat): (idx: nat)
      requires |slots| == mask + 1 && And(mask + 1, mask) == 0
      reads this
      ensures idx == ticks % |slots|
    {
      MaskIsModulo(ticks, mask + 1);
      And(ticks, mask)
    }

    // A token that was reserved and is not armed yet.
    predicate Holds(tok: Token)
      reads this
    {
      tok in slab && slab[tok].Reserved?
    }

    // Hands out an unused token. A slab without room doubles, up to the maximum capacity, and then
    // reserving fails; a slab created with no room at all never grows. So a wheel created with some room
    // hands out tokens until the maximum are taken.
    method Reserve() returns (r: Option<Token>)
      requires Valid()
      modifies this
      ensures Valid()
      ensures r.None? <==> |old(slab)| == old(capacity) && (old(capacity) == 0 || old(capacity) == maxCapacity)
      ensures old(capacity) > 0 ==> (r.None? <==> Taken(old(Abs())) == maxCapacity)
      ensures capacity ==
        if r.None? || |old(slab)| < old(capacity) then old(capacity)
        else if 2 * old(capacity) <= maxCapacity then 2 * old(capacity) else maxCapacity
      ensures r.None? ==> Abs() == old(Abs())
      ensures r.Some? ==> Holds(r.value)
      ensures r.Some? ==> r.value !in old(Abs()).timers && r.value !in old(Abs()).reserved
      ensures r.Some? ==> Abs() == WheelSpec.Reserve(old(Abs()), r.value)
    {
      TakenIs(Fields());
      hide RepOk, AbsOf, Taken, WheelSpec.Reserve;
      if |slab| == capacity {
        var amt := |slab|;
        amt := if amt <= maxCapacity - amt then amt else maxCapacity - amt;
        if amt == 0 {
          return None;
        }
        capacity := capacity + amt;
      }
      assert |slab.Keys| == |slab|;
      FreeIndex(slab.Keys, capacity);
      var tok: Token :| tok < capacity && tok !in slab;
      ReserveRep(Fields(), tok);
      slab := slab[tok := Reserved];
      r := Some(tok);
    }

    method SetTimeout(tok: Token, at: nat, task: nat)
      requires Valid() && Holds(tok)
      modifies this
      ensures Valid() && Abs() == Arm(old(Abs()), tok, at, task)
      ensures capacity == old(capacity)
    {
      ArmRep(Fields(), tok, at, task);
      hide RepOk;
      var tick := TimeToTicks(tickMs, at);
      if tick <= curWheelTick {
        tick := curWheelTick + 1;
      }
      var wheelIdx := TicksToWheelIdx(tick);
      var when := TickStart(tickMs, tick);

      // Insert at the head of the slot's linked list.
      var slot := slots[wheelIdx];
      var prevHead := slot.head;
      var entries := slab[tok := Timeout(task, when, wheelIdx, EMPTY, prevHead)];
      if prevHead != EMPTY {
        entries := entries[prevHead := entries[prevHead].(prev := tok)];
      }
      slot := slot.(head := tok);
      if slot.nextTimeout.None? || when <= slot.nextTimeout.value {
        slot := slot.(nextTimeout := Some(when));
      }
      slab, slots := entries, slots[wheelIdx := slot];
      threads := Threads(threads.lists[wheelIdx := [tok] + threads.lists[wheelIdx]],
                         if wheelIdx == curWheelTick % |slots| then [tok] + threads.passed else threads.passed,
                         threads.left);
      assert Fields() == ArmedRep(old(Fields()), tok, at, task);
      StillWithinCapacity(old(slab), slab, capacity);
    }

    // Unlinks an armed entry and takes it out of the slab.
    method RemoveTimeout(tok: Token)
      requires Valid() && IsTimeout(slab, tok)
      modifies this
      ensures Valid() && Abs() == Remove(old(Abs()), tok) && capacity == old(capacity)
    {
      hide RepOk, AbsOf, WithinCapacity, And, RemovedRep, Bypass, Bypassable;
      ghost var after := RemoveRep(Fields(), tok);
      var entry := slab[tok];
      var slot, entries := Unlink(slots[entry.wheelIdx], slab, tok);
      StillWithinCapacity(slab, entries, capacity);
      slab, slots := entries, slots[entry.wheelIdx := slot];
      if curSlabIdx == tok {
        curSlabIdx := entry.next;
      }
      threads := Threads(after.lists, after.passed, after.left);
    }

    // Takes the entry of a token out of the slab, and out of its list if it is armed.
    method RemoveSlab(tok: Token) returns (r: Option<Entry>)
      requires Valid()
      modifies this
      ensures Valid() && Abs() == Remove(old(Abs()), tok) && capacity == old(capacity)
      ensures r == if tok in old(slab) then Some(old(slab)[tok]) else None
    {
      ghost var after := RemoveRep(Fields(), tok);
      if tok !in slab {
        return None;
      }
      r := Some(slab[tok]);
      if slab[tok].Timeout? {
        RemoveTimeout(tok);
      } else {
        StillWithinCapacity(slab, slab - {tok}, capacity);
        hide RepOk, AbsOf, WithinCapacity, And;
        slab := slab - {tok};
        assert Fields() == after;
      }
    }

    // Takes out the timeout of a live token; a token no longer in the slab is ignored.
    method Cancel(tok: Token)
      requires Valid()
      modifies this
      ensures Valid() && Abs() == Remove(old(Abs()), tok) && capacity == old(capacity)
    {
      var _ := RemoveSlab(tok);
    }

    // The end of a slot's list: go to the next tick.
    method NextTick()
      requires Valid() && curSlabIdx == EMPTY
      modifies this
      ensures Valid() && Abs() == Advance(old(Abs())) && capacity == old(capacity)
      ensures curWheelTick == old(curWheelTick) + 1
    {
      hide RepOk, WithinCapacity, AbsOf, And, Advance;
      ghost var before := Fields();
      EmptyCursor(before);
      AdvanceRep(before);
      var idx := TicksToWheelIdx(curWheelTick);
      var nextIdx := TicksToWheelIdx(curWheelTick + 1);
      if curSlabIdx == slots[idx].head {
        slots := slots[idx := slots[idx].(nextTimeout := None)];
      }
      curWheelTick, curSlabIdx := curWheelTick + 1, slots[nextIdx].head;
      threads := threads.(passed := [], left := threads.lists[nextIdx]);
      assert Fields() == AdvancedRep(before);
    }

    // Moves the cursor past the entry under it, and returns when that entry is due.
    method StepCursorOn() returns (headTimeout: nat)
      requires Valid() && curSlabIdx != EMPTY
      modifies this
      ensures Valid() && slab == old(slab) && capacity == old(capacity)
      ensures old(threads.left != [] && IsTimeout(slab, curSlabIdx)) && Fields() == SteppedRep(old(Fields()))
      ensures headTimeout == old(slab[curSlabIdx].when)
      ensures Abs() == StepCursor(old(Abs()))
      ensures curWheelTick == old(curWheelTick) && |threads.left| < old(|threads.left|)
    {
      ghost var before := Fields();
      EmptyCursor(before);
      StepRep(before);
      hide RepOk;
      var head := curSlabIdx;
      var idx := TicksToWheelIdx(curWheelTick);
      if head == slots[idx].head {
        slots := slots[idx := slots[idx].(nextTimeout := None)];
      }
      curSlabIdx := slab[head].next;
      threads := threads.(passed := threads.passed + [threads.left[0]], left := threads.left[1..]);
      headTimeout := slab[head].when;
    }

    // Records an entry that was stepped over in its slot's minimum.
    method RestoreMinimum(headTimeout: nat, ghost before: Rep)
      requires Valid() && RepOk(before) && before.left != [] && IsTimeout(before.slab, before.cursor)
      requires Fields() == SteppedRep(before) && headTimeout == before.slab[before.cursor].when
      modifies this
      ensures Valid() && Abs() == Skip(AbsOf(before)) && capacity == old(capacity)
      ensures curWheelTick == old(curWheelTick) && threads == old(threads)
    {
      StepRep(before);
      SkipRep(before, headTimeout);
      hide RepOk;
      var idx := TicksToWheelIdx(curWheelTick);
      if slots[idx].nextTimeout.None? || headTimeout <= slots[idx].nextTimeout.value {
        slots := slots[idx := slots[idx].(nextTimeout := Some(headTimeout))];
      }
      assert slots[idx] == old(slots)[idx].(nextTimeout := Lower(old(slots)[idx].nextTimeout, headTimeout));
    }

    // Advances the cursor until a timeout due at `at` comes under it, which is removed and
    // returned, or until the cursor has passed the tick of `at`.
    method Poll(at: nat) returns (r: Option<nat>)
      requires Valid()
      modifies this
      ensures Valid() && capacity == old(capacity)
      ensures var (m', fired) := WheelSpec.Poll(old(Abs()), TimeToTicks(tickMs, at));
              && Abs() == m'
              && (fired.None? <==> r.None?)
              && (fired.Some? ==> fired.value in old(Abs()).timers && r == Some(old(Abs()).timers[fired.value].task))
    {
      var wheelTick := TimeToTicks(tickMs, at);
      ghost var m0 := Abs();
      PollTakesOnlyTheFired(m0, wheelTick);
      while curWheelTick <= wheelTick
        invariant Valid() && capacity == old(capacity)
        invariant WheelSpec.Poll(Abs(), wheelTick) == WheelSpec.Poll(m0, wheelTick)
        invariant Abs().timers == m0.timers
        decreases wheelTick + 1 - curWheelTick, |threads.left|
      {
        hide RepOk, Inv, WheelSpec.Poll, AbsOf, Advance, Skip, StepCursor, Remove, And, WithinCapacity, SteppedRep;
        ghost var before := Fields();
        PollUnfolds(before, wheelTick);
        if curSlabIdx == EMPTY {
          NextTick();
          continue;
        }
        var head := curSlabIdx;
        var headTimeout := StepCursorOn();
        if TimeToTicks(tickMs, headTimeout) <= wheelTick {
          var removed := RemoveSlab(head);
          return Some(removed.value.task);
        } else {
          RestoreMinimum(headTimeout, before);
        }
      }
      return None;
    }

    // The least of the slot minima.
    method NextTimeout() returns (min: Option<nat>)
      requires Valid()
      ensures min == MinNext(Abs().nexts)
    {
      min := None;
      ghost var nexts := Nexts(slots);
      for i := 0 to |slots|
        invariant min == MinNext(nexts[..i])
      {
        assert nexts[..i + 1][..i] == nexts[..i];
        var a := slots[i].nextTimeout;
        if a.Some? {
          if min.Some? && min.value < a.value {
            continue;
          }
          min := a;
        }
      }
      assert nexts[..|slots|] == nexts;
    }
  }
}
