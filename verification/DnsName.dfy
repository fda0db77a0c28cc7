// Domain names in DNS messages, with the compression pointers of section 4.1.4 of RFC 1035.
module DnsName {
  import opened Wrappers
  import opened Sequences
  import opened DnsTypes

  const DOT: byte := 0x2E

  // A scanned name: its bytes up to the terminator or the first pointer, and the whole message.
  datatype Name = Name(labels: seq<byte>, original: seq<byte>)

  predicate IsAscii(s: seq<byte>) {
    forall i :: 0 <= i < |s| ==> s[i] < 128
  }

  predicate IsPointer(b: byte) {
    b / 64 == 3
  }

  predicate IsLabel(b: byte) {
    b / 64 == 0
  }

  // Where a pointer points to: the low 14 bits of its two bytes.
  function Target(seg: seq<byte>): nat
    requires |seg| >= 2
  {
    ReadU16(seg, 0) % 0x4000
  }

  // Length bytes below 64 start a label; two bytes of which the first is at least 192 are a pointer to the
  // offset in their other fourteen bits.
  lemma LengthOrPointer(seg: seq<byte>)
    requires seg != []
    ensures (IsLabel(seg[0]) <==> seg[0] < 64) && (IsPointer(seg[0]) <==> seg[0] >= 192)
    ensures |seg| >= 2 && seg[0] >= 192 ==> Target(seg) == (seg[0] as int - 192) * 256 + seg[1] as int
  {
  }

  // ---------- the label walk ----------

  // The fully decompressed labels of a name, and how many bytes it takes where it stands.
  datatype Walked = Walked(labels: seq<seq<byte>>, len: nat)

  // Reads labels from seg, following a pointer only to an offset below bound.
  function Walk(seg: seq<byte>, original: seq<byte>, bound: nat): (r: Result<Walked>)
    ensures r.Ok? ==> 1 <= r.value.len <= |seg|
    decreases bound, |seg|
  {
    if seg == [] then Err(UnexpectedEOF)
    else if seg[0] == 0 then Ok(Walked([], 1))
    else if IsPointer(seg[0]) then
      if |seg| < 2 || Target(seg) >= |original| then Err(UnexpectedEOF)
      else if Target(seg) >= bound then Err(BadPointer)
      else
        var target :- Walk(original[Target(seg)..], original, Target(seg));
        Ok(Walked(target.labels, 2))
    else if IsLabel(seg[0]) then
      var end := seg[0] + 1;
      if |seg| < end then Err(UnexpectedEOF)
      else if !IsAscii(seg[1..end]) then Err(LabelIsNotAscii)
      else
        var rest :- Walk(seg[end..], original, bound);
        Ok(Walked([seg[1..end]] + rest.labels, end + rest.len))
    else Err(UnknownLabelFormat)
  }

  function ScanSpec(data: seq<byte>, original: seq<byte>): Result<Name> {
    var w :- Walk(data, original, |original|);
    Ok(Name(data[..w.len], original))
  }

  // What is left to walk, with `done` bytes of the name already counted, leads to the same answer.
  ghost predicate SameEnd(full: Result<Walked>, rest: Result<Walked>, done: nat, jumped: bool) {
    match rest
    case Err(e) => full == Err(e)
    case Ok(w) => full.Ok? && full.value.len == if jumped then done else done + w.len
  }

  // The scanning loop: total on every pair of buffers, and equal to the recursive walk.
  method Scan(data: seq<byte>, original: seq<byte>) returns (r: Result<Name>)
    ensures r == ScanSpec(data, original)
  {
    ghost var full := Walk(data, original, |original|);
    var parseData := data;
    var returnPos: Option<nat> := None;
    var pos := 0;
    if |parseData| <= pos {
      return Err(UnexpectedEOF);
    }
    // Starting from the whole length lets the first pointer go forwards.
    var largestPos: nat := |original|;
    var b := parseData[pos];
    assert parseData[0..] == data;
    while b != 0
      invariant 0 <= pos < |parseData| && b == parseData[pos] && largestPos <= |original|
      invariant returnPos.None? ==> parseData == data && largestPos == |original|
      invariant returnPos.Some? ==> returnPos.value + 2 <= |data|
      invariant SameEnd(full, Walk(parseData[pos..], original, largestPos),
                        if returnPos.Some? then returnPos.value + 2 else pos, returnPos.Some?)
      decreases largestPos, |parseData| - pos
    {
      ghost var seg := parseData[pos..];
      if IsPointer(b) {
        if |parseData| < pos + 2 {
          return Err(UnexpectedEOF);
        }
        var off := ReadU16(parseData, pos) % 0x4000;
        assert off == Target(seg);
        if off >= |original| {
          return Err(UnexpectedEOF);
        }
        if returnPos.None? {
          returnPos := Some(pos);
        }
        if off >= largestPos {
          return Err(BadPointer);
        }
        largestPos := off;
        pos := 0;
        parseData := original[off..];
        assert parseData[0..] == original[off..];
      } else if IsLabel(b) {
        var end := pos + b + 1;
        if |parseData| < end {
          return Err(UnexpectedEOF);
        }
        assert parseData[pos + 1..end] == seg[1..b + 1];
        if !IsAscii(parseData[pos + 1..end]) {
          return Err(LabelIsNotAscii);
        }
        assert parseData[end..] == seg[b + 1..];
        pos := end;
        if |parseData| <= pos {
          assert Walk(seg[b + 1..], original, largestPos) == Err(UnexpectedEOF);
          return Err(UnexpectedEOF);
        }
      } else {
        return Err(UnknownLabelFormat);
      }
      b := parseData[pos];
    }
    if returnPos.Some? {
      return Ok(Name(data[..returnPos.value + 2], original));
    } else {
      return Ok(Name(data[..pos + 1], original));
    }
  }

  // ---------- what is accepted ----------

  datatype Ending = Root | Pointer(off: nat)

  datatype Segment = Segment(labels: seq<seq<byte>>, ending: Ending, len: nat)

  // A run of labels up to the terminator or a pointer, without following the pointer.
  function Run(seg: seq<byte>): Option<Segment>
    decreases |seg|
  {
    if seg == [] then None
    else if seg[0] == 0 then Some(Segment([], Root, 1))
    else if IsPointer(seg[0]) then
      if |seg| < 2 then None else Some(Segment([], Pointer(Target(seg)), 2))
    else if IsLabel(seg[0]) && seg[0] + 1 <= |seg| && IsAscii(seg[1..seg[0] + 1]) then
      var end := seg[0] + 1;
      var rest := Run(seg[end..]);
      if rest.None? then None
      else Some(Segment([seg[1..end]] + rest.value.labels, rest.value.ending, end + rest.value.len))
    else None
  }

  // The runs of a name, each but the last ending in a pointer to the next.
  ghost predicate Chain(seg: seq<byte>, original: seq<byte>, hops: seq<nat>)
    decreases |hops|
  {
    && Run(seg).Some?
    && match Run(seg).value.ending
       case Root => hops == []
       case Pointer(off) => hops != [] && hops[0] == off < |original| && Chain(original[off..], original, hops[1..])
  }

  function ChainLabels(seg: seq<byte>, original: seq<byte>, hops: seq<nat>): seq<seq<byte>>
    requires Chain(seg, original, hops)
    decreases |hops|
  {
    Run(seg).value.labels + if hops == [] then [] else ChainLabels(original[hops[0]..], original, hops[1..])
  }

  ghost predicate Decreasing(hops: seq<nat>) {
    forall i, j :: 0 <= i < j < |hops| ==> hops[i] > hops[j]
  }

  // A walk is a run followed, at a pointer, by the walk from its target.
  lemma {:induction false} WalkByRuns(seg: seq<byte>, original: seq<byte>, bound: nat)
    ensures Walk(seg, original, bound).Ok? <==>
      && Run(seg).Some?
      && match Run(seg).value.ending
         case Root => true
         case Pointer(off) => off < |original| && off < bound && Walk(original[off..], original, off).Ok?
    ensures Walk(seg, original, bound).Ok? ==>
      && Walk(seg, original, bound).value.len == Run(seg).value.len
      && Walk(seg, original, bound).value.labels == Run(seg).value.labels +
           match Run(seg).value.ending
           case Root => []
           case Pointer(off) => Walk(original[off..], original, off).value.labels
    decreases |seg|
  {
    if seg != [] && seg[0] != 0 && IsLabel(seg[0]) && seg[0] + 1 <= |seg| && IsAscii(seg[1..seg[0] + 1]) {
      WalkAtLabel(seg, original, bound);
      RunAtLabel(seg);
      var rest := seg[seg[0] + 1..];
      WalkByRuns(rest, original, bound);
      hide Walk, Run, IsAscii, IsLabel;
      if Walk(rest, original, bound).Ok? {
        Regroup([seg[1..seg[0] + 1]], Run(rest).value.labels,
                match Run(rest).value.ending
                case Root => []
                case Pointer(off) => Walk(original[off..], original, off).value.labels);
      }
    } else {
      assert Walk(seg, original, bound).Ok? ==> seg[0] == 0 || IsPointer(seg[0]);
    }
  }

  lemma WalkAtLabel(seg: seq<byte>, original: seq<byte>, bound: nat)
    requires seg != [] && seg[0] != 0 && IsLabel(seg[0]) && seg[0] + 1 <= |seg| && IsAscii(seg[1..seg[0] + 1])
    ensures var end := seg[0] + 1;
            var walk := Walk(seg[end..], original, bound);
            Walk(seg, original, bound) ==
              if walk.Err? then walk else Ok(Walked([seg[1..end]] + walk.value.labels, end + walk.value.len))
  {
    assert !IsPointer(seg[0]);
    hide IsAscii;
  }

  lemma RunAtLabel(seg: seq<byte>)
    requires seg != [] && seg[0] != 0 && IsLabel(seg[0]) && seg[0] + 1 <= |seg| && IsAscii(seg[1..seg[0] + 1])
    ensures var end := seg[0] + 1;
            var run := Run(seg[end..]);
            Run(seg) ==
              if run.None? then None else Some(Segment([seg[1..end]] + run.value.labels, run.value.ending, end + run.value.len))
  {
    assert !IsPointer(seg[0]);
    hide IsAscii;
  }

  // Every walk that succeeds gives its chain of pointers, strictly decreasing below the bound.
  lemma {:induction false} WalkGivesChain(seg: seq<byte>, original: seq<byte>, bound: nat) returns (hops: seq<nat>)
    requires Walk(seg, original, bound).Ok?
    ensures Chain(seg, original, hops) && Decreasing(hops) && (hops != [] ==> hops[0] < bound)
    ensures Walk(seg, original, bound).value == Walked(ChainLabels(seg, original, hops), Run(seg).value.len)
    decreases bound
  {
    WalkByRuns(seg, original, bound);
    match Run(seg).value.ending
    case Root =>
      hops := [];
    case Pointer(off) =>
      var rest := WalkGivesChain(original[off..], original, off);
      hops := [off] + rest;
      assert hops[1..] == rest;
      assert forall i :: 0 < i < |hops| ==> hops[i] == rest[i - 1] <= rest[0];
  }

  lemma {:induction false} ChainGivesWalk(seg: seq<byte>, original: seq<byte>, bound: nat, hops: seq<nat>)
    requires Chain(seg, original, hops) && Decreasing(hops) && (hops != [] ==> hops[0] < bound)
    ensures Walk(seg, original, bound) == Ok(Walked(ChainLabels(seg, original, hops), Run(seg).value.len))
    decreases |hops|
  {
    WalkByRuns(seg, original, bound);
    if hops != [] {
      ChainGivesWalk(original[hops[0]..], original, hops[0], hops[1..]);
    }
  }

  // Main result for the scanner: it accepts exactly the names whose pointers form a chain that, after
  // its first hop, goes strictly backwards; it returns the bytes of the first run.
  lemma ScanAcceptsIff(data: seq<byte>, original: seq<byte>)
    ensures ScanSpec(data, original).Ok? <==> exists hops :: Chain(data, original, hops) && Decreasing(hops)
    ensures ScanSpec(data, original).Ok? ==>
      Run(data).Some? && Run(data).value.len <= |data| && ScanSpec(data, original).value == Name(data[..Run(data).value.len], original)
  {
    if Walk(data, original, |original|).Ok? {
      var hops := WalkGivesChain(data, original, |original|);
    }
    forall hops | Chain(data, original, hops) && Decreasing(hops)
      ensures Walk(data, original, |original|).Ok?
    {
      ChainGivesWalk(data, original, |original|, hops);
    }
  }

  // ---------- printing ----------

  // A name that came out of the scanner: its bytes are exactly one walkable name.
  ghost predicate Scanned(name: Name, bound: nat) {
    var w := Walk(name.labels, name.original, bound);
    w.Ok? && w.value.len == |name.labels|
  }

  // What the printer writes from here on; `first` says that nothing was written for this run yet.
  function Rendered(seg: seq<byte>, original: seq<byte>, bound: nat, first: bool): seq<byte>
    requires Walk(seg, original, bound).Ok?
    decreases bound, |seg|
  {
    var sep := if first then [] else [DOT];
    if seg[0] == 0 then []
    else if IsPointer(seg[0]) then sep + Rendered(original[Target(seg)..], original, Target(seg), true)
    else sep + seg[1..seg[0] + 1] + Rendered(seg[seg[0] + 1..], original, bound, false)
  }

  // A looser bound changes nothing for a walk that succeeds under a tighter one.
  lemma {:induction false} LooserBound(seg: seq<byte>, original: seq<byte>, bound: nat, looser: nat, first: bool)
    requires Walk(seg, original, bound).Ok? && bound <= looser
    ensures Walk(seg, original, looser) == Walk(seg, original, bound)
    ensures Rendered(seg, original, looser, first) == Rendered(seg, original, bound, first)
    decreases |seg|
  {
    if seg[0] != 0 && !IsPointer(seg[0]) {
      LooserBound(seg[seg[0] + 1..], original, bound, looser, false);
    }
  }

  // The bytes after a name do not matter.
  lemma {:induction false} OnlyThePrefix(seg: seq<byte>, original: seq<byte>, bound: nat, first: bool)
    requires Walk(seg, original, bound).Ok?
    ensures var w := Walk(seg, original, bound);
            Walk(seg[..w.value.len], original, bound) == w
            && Rendered(seg[..w.value.len], original, bound, first) == Rendered(seg, original, bound, first)
    decreases |seg|
  {
    var w := Walk(seg, original, bound).value;
    var cut := seg[..w.len];
    if seg[0] == 0 {
    } else if IsPointer(seg[0]) {
      assert Target(cut) == Target(seg);
    } else {
      var end := seg[0] + 1;
      OnlyThePrefix(seg[end..], original, bound, false);
      assert cut[1..end] == seg[1..end];
      assert cut[end..] == seg[end..][..w.len - end];
    }
  }

  lemma {:induction false} WalkExtends(seg: seq<byte>, more: seq<byte>, original: seq<byte>, bound: nat)
    requires Walk(seg, original, bound).Ok?
    ensures Walk(seg + more, original, bound) == Walk(seg, original, bound)
    decreases |seg|
  {
    if seg[0] != 0 && !IsPointer(seg[0]) {
      var end := seg[0] + 1;
      WalkExtends(seg[end..], more, original, bound);
      assert (seg + more)[end..] == seg[end..] + more;
      assert (seg + more)[1..end] == seg[1..end];
    } else if seg[0] != 0 {
      assert Target(seg + more) == Target(seg);
    }
  }

  // A scanned name of the message at the front of some bytes.
  ghost predicate NameHeads(name: Name, original: seq<byte>, data: seq<byte>) {
    name.original == original && name.labels <= data && Scanned(name, |original|)
  }

  // Scanning finds a name exactly if it stands there.
  lemma ScanIff(data: seq<byte>, original: seq<byte>, name: Name)
    ensures ScanSpec(data, original) == Ok(name) <==> NameHeads(name, original, data)
  {
    if ScanSpec(data, original) == Ok(name) {
      ScanGivesScanned(data, original);
    }
    if NameHeads(name, original, data) {
      var more := data[|name.labels|..];
      assert data == name.labels + more;
      WalkExtends(name.labels, more, original, |original|);
      assert data[..|name.labels|] == name.labels;
    }
  }

  lemma ScanGivesScanned(data: seq<byte>, original: seq<byte>)
    requires ScanSpec(data, original).Ok?
    ensures Scanned(ScanSpec(data, original).value, |original|)
  {
    OnlyThePrefix(data, original, |original|, true);
  }

  // At a pointer of a scanned name, scanning again from the target succeeds, although it starts with
  // the looser bound, and what it returns is again a scanned name, below the target.
  lemma RescanSucceeds(seg: seq<byte>, original: seq<byte>, bound: nat)
    requires Walk(seg, original, bound).Ok? && seg[0] != 0 && IsPointer(seg[0])
    ensures var off := Target(seg);
            && off < bound && off < |original| && ScanSpec(original[off..], original).Ok?
            && var inner := ScanSpec(original[off..], original).value;
               && inner.original == original && Scanned(inner, off)
               && Rendered(inner.labels, original, off, true) == Rendered(original[off..], original, off, true)
  {
    var off := Target(seg);
    LooserBound(original[off..], original, off, |original|, true);
    OnlyThePrefix(original[off..], original, off, true);
  }

  lemma LabelStep(seg: seq<byte>, original: seq<byte>, bound: nat, first: bool)
    requires Walk(seg, original, bound).Ok? && seg[0] != 0 && !IsPointer(seg[0])
    ensures var end := seg[0] + 1;
            && IsLabel(seg[0]) && end < |seg| && IsAscii(seg[1..end])
            && Walk(seg[end..], original, bound).Ok?
            && Walk(seg, original, bound).value.len == end + Walk(seg[end..], original, bound).value.len
            && Rendered(seg, original, bound, first) ==
               (if first then [] else [DOT]) + seg[1..end] + Rendered(seg[end..], original, bound, false)
  {
  }

  lemma PointerStep(seg: seq<byte>, original: seq<byte>, bound: nat, first: bool)
    requires Walk(seg, original, bound).Ok? && seg[0] != 0 && IsPointer(seg[0])
    ensures |seg| >= 2 && Target(seg) < |original| && Walk(original[Target(seg)..], original, Target(seg)).Ok?
    ensures Rendered(seg, original, bound, first) ==
            (if first then [] else [DOT]) + Rendered(original[Target(seg)..], original, Target(seg), true)
  {
  }

  // The printer. Every name it is given, or scans again at a pointer, is safe to print: the second
  // scan cannot fail, no byte of an unknown format is met, and the pointers it follows decrease.
  method Display(name: Name, ghost bound: nat) returns (text: seq<byte>)
    requires Scanned(name, bound) && bound <= |name.original|
    ensures text == Rendered(name.labels, name.original, bound, true)
    decreases bound
  {
    var data, original := name.labels, name.original;
    var pos := 0;
    text := [];
    hide Walk, Rendered, Prints, ReadU16, Target, ScanSpec, IsAscii;
    ghost var whole := Rendered(data, original, bound, true);
    PrintsAll(whole);
    FromStart(data);
    while true
      invariant 0 <= pos < |data|
      invariant Walk(data[pos..], original, bound).Ok? && Walk(data[pos..], original, bound).value.len == |data| - pos
      invariant Prints(whole, text, Rendered(data[pos..], original, bound, pos == 0))
      decreases |data| - pos
    {
      ghost var seg := data[pos..];
      ghost var sep := if pos == 0 then [] else [DOT];
      var b := data[pos];
      if b == 0 {
        NothingAtRoot(seg, original, bound, pos == 0);
        PrintedAll(whole, text);
        return;
      } else if IsPointer(b) {
        PointerStep(seg, original, bound, pos == 0);
        RescanSucceeds(seg, original, bound);
        var off := ReadU16(data, pos) % 0x4000;
        TargetAt(data, pos);
        PrintsMore(whole, text, sep, Rendered(original[off..], original, off, true), []);
        if pos != 0 {
          text := text + [DOT];
        }
        var inner := Scan(original[off..], original);
        var rest := Display(inner.value, off);
        text := text + rest;
        PrintedAll(whole, text);
        return;
      } else {
        // The remaining formats cannot occur in a scanned name, and its labels are ASCII.
        LabelStep(seg, original, bound, pos == 0);
        var end := pos + b + 1;
        SliceOfTail(data, pos, b + 1);
        PrintsMore(whole, text, sep, data[pos + 1..end], Rendered(data[end..], original, bound, false));
        if pos != 0 {
          text := text + [DOT];
        }
        text := text + data[pos + 1..end];
        pos := end;
      }
    }
  }

  // After `text`, what is left to print is `rest`.
  ghost predicate Prints(whole: seq<byte>, text: seq<byte>, rest: seq<byte>) {
    whole == text + rest
  }

  lemma FromStart(data: seq<byte>)
    ensures data[0..] == data
  {
  }

  lemma PrintsAll(whole: seq<byte>)
    ensures Prints(whole, [], whole)
  {
  }

  lemma PrintedAll(whole: seq<byte>, text: seq<byte>)
    requires Prints(whole, text, [])
    ensures text == whole
  {
  }

  lemma PrintsMore(whole: seq<byte>, text: seq<byte>, sep: seq<byte>, part: seq<byte>, rest: seq<byte>)
    requires Prints(whole, text, sep + part + rest) || (rest == [] && Prints(whole, text, sep + part))
    ensures Prints(whole, text + sep + part, rest) && (sep == [] ==> Prints(whole, text + part, rest))
  {
  }

  lemma TargetAt(data: seq<byte>, pos: nat)
    requires pos + 2 <= |data|
    ensures ReadU16(data, pos) % 0x4000 == Target(data[pos..])
  {
  }

  lemma SliceOfTail(data: seq<byte>, pos: nat, n: nat)
    requires n > 0 && pos + n <= |data|
    ensures data[pos..][1..n] == data[pos + 1..pos + n] && data[pos..][n..] == data[pos + n..]
  {
  }

  lemma NothingAtRoot(seg: seq<byte>, original: seq<byte>, bound: nat, first: bool)
    requires Walk(seg, original, bound).Ok? && seg[0] == 0
    ensures Rendered(seg, original, bound, first) == []
  {
  }

  // ---------- what is printed ----------

  function Join(labels: seq<seq<byte>>): seq<byte> {
    if labels == [] then [] else labels[0] + Tail(labels[1..])
  }

  function Tail(labels: seq<seq<byte>>): seq<byte> {
    if labels == [] then [] else [DOT] + labels[0] + Tail(labels[1..])
  }

  // Some label is followed by a pointer to a name without labels.
  predicate Dangling(seg: seq<byte>, original: seq<byte>, bound: nat, first: bool)
    requires Walk(seg, original, bound).Ok?
    decreases bound, |seg|
  {
    if seg[0] == 0 then false
    else if IsPointer(seg[0]) then
      (!first && Walk(original[Target(seg)..], original, Target(seg)).value.labels == [])
      || Dangling(original[Target(seg)..], original, Target(seg), true)
    else Dangling(seg[seg[0] + 1..], original, bound, false)
  }

  lemma {:induction false} EmptyNameIsNotDangling(seg: seq<byte>, original: seq<byte>, bound: nat)
    requires Walk(seg, original, bound).Ok? && Walk(seg, original, bound).value.labels == []
    ensures !Dangling(seg, original, bound, true)
    decreases bound
  {
    if seg[0] != 0 && IsPointer(seg[0]) {
      EmptyNameIsNotDangling(original[Target(seg)..], original, Target(seg));
    }
  }

  lemma {:induction false} RenderedText(seg: seq<byte>, original: seq<byte>, bound: nat, first: bool)
    requires Walk(seg, original, bound).Ok?
    ensures var labels := Walk(seg, original, bound).value.labels;
            Rendered(seg, original, bound, first) ==
              (if first then Join(labels) else Tail(labels)) + (if Dangling(seg, original, bound, first) then [DOT] else [])
    decreases bound, |seg|
  {
    if seg[0] == 0 {
    } else if IsPointer(seg[0]) {
      PointerStep(seg, original, bound, first);
      var off := Target(seg);
      var target := original[off..];
      RenderedText(target, original, off, true);
      if Walk(target, original, off).value.labels == [] {
        EmptyNameIsNotDangling(target, original, off);
      }
      DanglingAtPointer(seg, original, bound, first);
      var dot := if Dangling(target, original, off, true) then [DOT] else [];
      PointerText(Walk(target, original, off).value.labels, dot);
      hide Walk, Rendered, Dangling, Join, Tail;
    } else {
      LabelStep(seg, original, bound, first);
      var rest := seg[seg[0] + 1..];
      RenderedText(rest, original, bound, false);
      DanglingAtLabel(seg, original, bound, first);
      var dot := if Dangling(rest, original, bound, false) then [DOT] else [];
      LabelText(seg[1..seg[0] + 1], Walk(rest, original, bound).value.labels, dot);
      hide Walk, Rendered, Dangling, Join, Tail;
    }
  }

  lemma PointerText(labels: seq<seq<byte>>, dot: seq<byte>)
    ensures labels != [] ==> [DOT] + (Join(labels) + dot) == Tail(labels) + dot
    ensures labels == [] ==> Join(labels) == Tail(labels) == []
  {
    if labels != [] {
      var rest := Tail(labels[1..]);
      assert Join(labels) == labels[0] + rest && Tail(labels) == [DOT] + labels[0] + rest;
      hide Join, Tail;
      Regroup([DOT], labels[0], rest);
      Regroup([DOT], Join(labels), dot);
    }
  }

  lemma LabelText(head: seq<byte>, rest: seq<seq<byte>>, dot: seq<byte>)
    ensures [] + head + (Tail(rest) + dot) == Join([head] + rest) + dot
    ensures [DOT] + head + (Tail(rest) + dot) == Tail([head] + rest) + dot
  {
    assert ([head] + rest)[1..] == rest;
  }

  lemma DanglingAtPointer(seg: seq<byte>, original: seq<byte>, bound: nat, first: bool)
    requires Walk(seg, original, bound).Ok? && seg[0] != 0 && IsPointer(seg[0])
    ensures |seg| >= 2 && Target(seg) < |original| && Walk(original[Target(seg)..], original, Target(seg)).Ok?
    ensures Walk(seg, original, bound).value.labels == Walk(original[Target(seg)..], original, Target(seg)).value.labels
    ensures Dangling(seg, original, bound, first) <==>
            (!first && Walk(original[Target(seg)..], original, Target(seg)).value.labels == [])
            || Dangling(original[Target(seg)..], original, Target(seg), true)
  {
  }

  lemma DanglingAtLabel(seg: seq<byte>, original: seq<byte>, bound: nat, first: bool)
    requires Walk(seg, original, bound).Ok? && seg[0] != 0 && !IsPointer(seg[0])
    ensures var end := seg[0] + 1;
            && end < |seg| && Walk(seg[end..], original, bound).Ok?
            && Walk(seg, original, bound).value.labels == [seg[1..end]] + Walk(seg[end..], original, bound).value.labels
            && (Dangling(seg, original, bound, first) <==> Dangling(seg[end..], original, bound, false))
  {
  }

  // Main result for the printer: a scanned name prints as its decompressed labels joined with dots,
  // exactly when no pointer after a label leads to a name without labels; otherwise one dot is added.
  lemma DisplayText(data: seq<byte>, original: seq<byte>)
    requires Walk(data, original, |original|).Ok?
    ensures var labels := Walk(data, original, |original|).value.labels;
            var name := ScanSpec(data, original).value;
            && Scanned(name, |original|)
            && var text := Rendered(name.labels, original, |original|, true);
               && (text == Join(labels) <==> !Dangling(data, original, |original|, true))
               && (Dangling(data, original, |original|, true) ==> text == Join(labels) + [DOT])
  {
    OnlyThePrefix(data, original, |original|, true);
    RenderedText(data, original, |original|, true);
  }

  // The exception exists: "xx" followed by a pointer to an empty name prints as "xx.".
  lemma DanglingDotExample()
    ensures var msg: seq<byte> := [0, 2, 0x78, 0x78, 0xC0, 0];
            && Walk(msg[1..], msg, |msg|).Ok? && Walk(msg[1..], msg, |msg|).value.labels == [[0x78, 0x78]]
            && Rendered(msg[1..], msg, |msg|, true) == [0x78, 0x78, DOT]
  {
    var msg: seq<byte> := [0, 2, 0x78, 0x78, 0xC0, 0];
    var seg := msg[1..];
    var rest := seg[3..];
    assert rest == [0xC0, 0] && Target(rest) == 0;
    assert msg[0..][0] == 0;
    assert Walk(msg[0..], msg, 0) == Ok(Walked([], 1));
    assert IsPointer(rest[0]);
    assert Walk(rest, msg, |msg|) == Ok(Walked([], 2));
    assert Rendered(rest, msg, |msg|, false) == [DOT];
    assert seg[1..3] == [0x78, 0x78] && IsLabel(seg[0]) && !IsPointer(seg[0]) && IsAscii(seg[1..3]);
    assert Walk(seg, msg, |msg|) == Ok(Walked([seg[1..3]] + [], 3 + 2));
  }
}
