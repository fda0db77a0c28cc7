// The query builder, and the proof that the parser reads back what it writes.
module DnsBuilder {
  import opened Wrappers
  import opened Sequences
  import opened DnsTypes
  import opened DnsName
  import opened DnsParser
  import H = DnsHeader

  // ---------- names as text ----------

  // The parts of a text between dots; at least one, possibly empty.
  function Split(text: seq<byte>): (parts: seq<seq<byte>>)
    ensures |parts| > 0
  {
    if text == [] then [[]]
    else
      var rest := Split(text[1..]);
      if text[0] == DOT then [[]] + rest else [[text[0]] + rest[0]] + rest[1..]
  }

  lemma {:induction false} JoinUndoesSplit(text: seq<byte>)
    ensures Join(Split(text)) == text
  {
    if text != [] {
      var rest := Split(text[1..]);
      JoinUndoesSplit(text[1..]);
      if text[0] == DOT {
        assert Split(text)[1..] == rest;
        assert Tail(rest) == [DOT] + (rest[0] + Tail(rest[1..]));
      } else {
        assert Split(text)[1..] == rest[1..];
        assert Join(Split(text)) == [text[0]] + (rest[0] + Tail(rest[1..]));
      }
    }
  }

  // The parts hold no dot, and are the only such parts that join to the text.
  lemma SplitIff(text: seq<byte>, parts: seq<seq<byte>>)
    ensures parts == Split(text) <==>
            parts != [] && (forall i :: 0 <= i < |parts| ==> 46 !in parts[i]) && Join(parts) == text
  {
    JoinUndoesSplit(text);
    SplitHasNoDots(text);
    if parts != [] && (forall i :: 0 <= i < |parts| ==> 46 !in parts[i]) {
      SplitUndoesJoin(parts);
    }
  }

  lemma {:induction false} SplitHasNoDots(text: seq<byte>)
    ensures forall i :: 0 <= i < |Split(text)| ==> 46 !in Split(text)[i]
  {
    if text != [] {
      SplitHasNoDots(text[1..]);
    }
  }

  lemma {:induction false} SplitUndoesJoin(parts: seq<seq<byte>>)
    requires parts != [] && forall i :: 0 <= i < |parts| ==> 46 !in parts[i]
    ensures Split(Join(parts)) == parts
  {
    var p, rest := parts[0], parts[1..];
    assert parts == [p] + rest;
    if rest == [] {
      assert Join(parts) == p + [];
      SplitPlain(p, []);
      assert p + [] == p;
    } else {
      SplitUndoesJoin(rest);
      assert Tail(rest) == [DOT] + rest[0] + Tail(rest[1..]) == [DOT] + Join(rest);
      SplitPlain(p, [DOT] + Join(rest));
      assert ([DOT] + Join(rest))[1..] == Join(rest);
      assert Split([DOT] + Join(rest)) == [[]] + rest;
      assert p + [] == p;
    }
  }

  // ---------- names as bytes ----------

  function LabelBytes(parts: seq<seq<byte>>): seq<byte>
    requires forall i :: 0 <= i < |parts| ==> |parts[i]| < 63
  {
    if parts == [] then [] else [|parts[0]|] + parts[0] + LabelBytes(parts[1..])
  }

  predicate Clean(parts: seq<seq<byte>>) {
    forall i :: 0 <= i < |parts| ==> parts[i] != [] && IsAscii(parts[i])
  }

  predicate Short(parts: seq<seq<byte>>) {
    forall i :: 0 <= i < |parts| ==> |parts[i]| < 63
  }

  // A written name is read back as its parts exactly when every part is non-empty and ASCII.
  lemma {:induction false} NameReadsBackIff(parts: seq<seq<byte>>, rest: seq<byte>, original: seq<byte>, bound: nat)
    requires Short(parts)
    ensures Walk(LabelBytes(parts) + [0] + rest, original, bound) == Ok(Walked(parts, |LabelBytes(parts)| + 1))
            <==> Clean(parts)
    decreases |parts|
  {
    var seg := LabelBytes(parts) + [0] + rest;
    if parts == [] {
      assert seg[0] == 0;
      WalkRoot(seg, original, bound);
    } else {
      var p := parts[0];
      FirstLabel(parts, rest);
      CleanCons(parts);
      hide Walk, LabelBytes, Clean, IsAscii;
      if p == [] {
        WalkRoot(seg, original, bound);
      } else {
        NameReadsBackIff(parts[1..], rest, original, bound);
        WalkLabel(seg, p, original, bound);
        ConsInjective(parts, p);
      }
    }
  }

  // The first label of a written name and what follows it.
  lemma FirstLabel(parts: seq<seq<byte>>, rest: seq<byte>)
    requires Short(parts) && parts != []
    ensures var seg := LabelBytes(parts) + [0] + rest;
            var end := |parts[0]| + 1;
            && Short(parts[1..]) && |LabelBytes(parts)| == end + |LabelBytes(parts[1..])|
            && |seg| >= end && seg[0] == |parts[0]| && seg[1..end] == parts[0]
            && seg[end..] == LabelBytes(parts[1..]) + [0] + rest
  {
    var tail := LabelBytes(parts[1..]);
    assert LabelBytes(parts) == [|parts[0]|] + parts[0] + tail;
    Regroup(LabelBytes(parts), [0], rest);
    Regroup(tail, [0], rest);
    FrontOf(LabelBytes(parts), |parts[0]|, parts[0], tail, [0] + rest);
    hide LabelBytes;
  }

  lemma FrontOf(s: seq<byte>, n: byte, p: seq<byte>, tail: seq<byte>, more: seq<byte>)
    requires s == [n] + p + tail
    ensures var end := |p| + 1;
            |s + more| >= end && (s + more)[0] == n && (s + more)[1..end] == p && (s + more)[end..] == tail + more
  {
    assert s[|p| + 1..] == tail;
    assert (s + more)[|p| + 1..] == s[|p| + 1..] + more;
  }

  lemma WalkRoot(seg: seq<byte>, original: seq<byte>, bound: nat)
    requires seg != [] && seg[0] == 0
    ensures Walk(seg, original, bound) == Ok(Walked([], 1))
  {
  }

  lemma ConsInjective(parts: seq<seq<byte>>, p: seq<byte>)
    requires parts != [] && parts[0] == p
    ensures forall labels :: [p] + labels == parts <==> labels == parts[1..]
  {
    forall labels ensures [p] + labels == parts <==> labels == parts[1..] {
      assert ([p] + labels)[1..] == labels;
      assert parts == [p] + parts[1..];
    }
  }

  lemma WalkLabel(seg: seq<byte>, p: seq<byte>, original: seq<byte>, bound: nat)
    requires p != [] && |p| < 63 && |seg| > |p| && seg[0] == |p| && seg[1..|p| + 1] == p
    ensures !IsAscii(p) ==> Walk(seg, original, bound).Err?
    ensures IsAscii(p) ==>
      var rest := Walk(seg[|p| + 1..], original, bound);
      if rest.Ok? then Walk(seg, original, bound) == Ok(Walked([p] + rest.value.labels, |p| + 1 + rest.value.len))
      else Walk(seg, original, bound).Err?
  {
  }

  lemma CleanCons(parts: seq<seq<byte>>)
    requires parts != []
    ensures Clean(parts) <==> parts[0] != [] && IsAscii(parts[0]) && Clean(parts[1..])
  {
    assert parts == [parts[0]] + parts[1..];
    if parts[0] != [] && IsAscii(parts[0]) && Clean(parts[1..]) {
      forall i | 0 <= i < |parts| ensures parts[i] != [] && IsAscii(parts[i]) {
        assert i > 0 ==> parts[i] == parts[1..][i - 1];
      }
    }
  }

  // A name written without pointers prints as the text it came from.
  lemma {:induction false} PlainNameNotDangling(parts: seq<seq<byte>>, rest: seq<byte>, original: seq<byte>, bound: nat, first: bool)
    requires Short(parts) && Clean(parts)
    ensures var seg := LabelBytes(parts) + [0] + rest;
            Walk(seg, original, bound) == Ok(Walked(parts, |LabelBytes(parts)| + 1)) && !Dangling(seg, original, bound, first)
    decreases |parts|
  {
    NameReadsBackIff(parts, rest, original, bound);
    if parts != [] {
      var p := parts[0];
      var seg := LabelBytes(parts) + [0] + rest;
      CleanCons(parts);
      FirstLabel(parts, rest);
      PlainNameNotDangling(parts[1..], rest, original, bound, false);
    }
  }

  // The builder gives up on a long label, or on one that would not fit the buffer.
  predicate Fits(parts: seq<seq<byte>>, off: nat, capacity: nat) {
    parts == [] || (|parts[0]| < 63 && |parts[0]| + off + 1 <= capacity && Fits(parts[1..], off + 1 + |parts[0]|, capacity))
  }

  lemma {:induction false} FitsPrefix(parts: seq<seq<byte>>, k: nat, off: nat, capacity: nat)
    requires k <= |parts| && Short(parts[..k]) && off + |LabelBytes(parts[..k])| <= capacity
    ensures Fits(parts, off, capacity) <==> Fits(parts[k..], off + |LabelBytes(parts[..k])|, capacity)
    decreases k
  {
    if k == 0 {
      assert parts[0..] == parts;
    } else {
      assert parts[..k][1..] == parts[1..][..k - 1] && parts[1..][k - 1..] == parts[k..];
      assert parts[..k][0] == parts[0];
      var inner := parts[1..][..k - 1];
      forall i | 0 <= i < |inner| ensures |inner[i]| < 63 {
        assert inner[i] == parts[..k][i + 1];
      }
      FitsPrefix(parts[1..], k - 1, off + 1 + |parts[0]|, capacity);
    }
  }

  lemma FitsFirst(parts: seq<seq<byte>>, off: nat, capacity: nat)
    ensures parts == [] ==> Fits(parts, off, capacity)
    ensures parts != [] && (|parts[0]| >= 63 || |parts[0]| + off + 1 > capacity) ==> !Fits(parts, off, capacity)
  {
  }

  lemma {:induction false} LabelBytesAppend(parts: seq<seq<byte>>, p: seq<byte>)
    requires Short(parts) && |p| < 63
    ensures Short(parts + [p]) && LabelBytes(parts + [p]) == LabelBytes(parts) + ([|p|] + p)
  {
    if parts == [] {
      assert parts + [p] == [p];
    } else {
      assert (parts + [p])[1..] == parts[1..] + [p];
      LabelBytesAppend(parts[1..], p);
      var front := [|parts[0]|] + parts[0];
      assert LabelBytes(parts) == front + LabelBytes(parts[1..]);
      assert LabelBytes(parts + [p]) == front + LabelBytes(parts[1..] + [p]);
      hide LabelBytes;
      Regroup(front, LabelBytes(parts[1..]), [|p|] + p);
    }
  }

  lemma {:induction false} SplitLength(text: seq<byte>)
    ensures Short(Split(text)) ==> |LabelBytes(Split(text))| == |text| + 1
  {
    if text != [] {
      var rest := Split(text[1..]);
      SplitLength(text[1..]);
      if text[0] == DOT {
        assert Split(text)[1..] == rest;
        assert Short(Split(text)) ==> Short(rest);
      } else {
        assert Split(text)[1..] == rest[1..];
        assert Short(Split(text)) ==> Short(rest);
      }
    }
  }

  lemma ShortTail(parts: seq<seq<byte>>)
    requires parts != []
    ensures Short(parts) <==> |parts[0]| < 63 && Short(parts[1..])
  {
    assert forall i :: 0 < i < |parts| ==> parts[i] == parts[1..][i - 1];
    if |parts[0]| < 63 && Short(parts[1..]) {
      forall i | 0 <= i < |parts| ensures |parts[i]| < 63 {
        assert i > 0 ==> parts[i] == parts[1..][i - 1];
      }
    }
  }

  lemma {:induction false} PartsFitIff(parts: seq<seq<byte>>, off: nat, capacity: nat)
    requires off <= capacity
    ensures Fits(parts, off, capacity) <==> Short(parts) && off + |LabelBytes(parts)| <= capacity
  {
    if parts != [] {
      ShortTail(parts);
      if |parts[0]| < 63 && |parts[0]| + off + 1 <= capacity {
        PartsFitIff(parts[1..], off + 1 + |parts[0]|, capacity);
      }
    }
  }

  // A name fits exactly when its labels are short and there is room for them with their lengths.
  lemma FitsIff(name: seq<byte>, off: nat, capacity: nat)
    requires off <= capacity
    ensures Fits(Split(name), off, capacity) <==>
            (forall i :: 0 <= i < |Split(name)| ==> |Split(name)[i]| <= 62) && off + |name| + 1 <= capacity
  {
    SplitLength(name);
    PartsFitIff(Split(name), off, capacity);
  }

  // How writing ends. The program panics when it indexes past the buffer.
  datatype WriteResult = Wrote(end: nat) | GaveUp | Panics

  method WriteName(buf: array<byte>, start: nat, name: seq<byte>) returns (r: WriteResult)
    requires start <= buf.Length
    modifies buf
    ensures r.GaveUp? <==> !Fits(Split(name), start, buf.Length)
    ensures r.Panics? <==> Fits(Split(name), start, buf.Length) && start + |name| + 1 == buf.Length
    ensures r.Wrote? ==> Short(Split(name)) && r.end == start + |LabelBytes(Split(name))| + 1 <= buf.Length
    ensures r.Wrote? ==> buf[..r.end] == old(buf[..start]) + LabelBytes(Split(name)) + [0]
    ensures buf[..start] == old(buf[..start])
  {
    SplitLength(name);
    hide LabelBytes, Split, Fits;
    var off := WriteLabels(buf, start, Split(name));
    if off.None? {
      return GaveUp;
    }
    if off.value == buf.Length {
      return Panics;
    }
    var end := Terminate(buf, off.value, start);
    r := Wrote(end);
  }

  method WriteLabels(buf: array<byte>, start: nat, parts: seq<seq<byte>>) returns (r: Option<nat>)
    requires start <= buf.Length
    modifies buf
    ensures r.Some? <==> Fits(parts, start, buf.Length)
    ensures r.Some? ==> Short(parts) && r.value == start + |LabelBytes(parts)| <= buf.Length
    ensures r.Some? ==> buf[..r.value] == old(buf[..start]) + LabelBytes(parts)
    ensures r.Some? ==> buf[..r.value][..start] == old(buf[..start])
    ensures buf[..start] == old(buf[..start])
  {
    var off := start;
    assert LabelBytes(parts[..0]) == [];
    hide LabelBytes, Fits;
    for k := 0 to |parts|
      invariant Short(parts[..k]) && off == start + |LabelBytes(parts[..k])| <= buf.Length
      invariant buf[..off] == old(buf[..start]) + LabelBytes(parts[..k])
    {
      var part := parts[k];
      FitsPrefix(parts, k, start, buf.Length);
      FitsFirst(parts[k..], off, buf.Length);
      if |part| >= 63 || |part| + off + 1 > buf.Length {
        assert buf[..start] == buf[..off][..start];
        return None;
      }
      LabelBytesAppend(parts[..k], part);
      assert parts[..k + 1] == parts[..k] + [part];
      off := WriteLabel(buf, off, part);
    }
    assert parts[..|parts|] == parts && parts[|parts|..] == [];
    FitsPrefix(parts, |parts|, start, buf.Length);
    FitsFirst(parts[|parts|..], off, buf.Length);
    assert buf[..start] == buf[..off][..start];
    r := Some(off);
  }

  // Ends a name.
  method Terminate(buf: array<byte>, off: nat, ghost start: nat) returns (end: nat)
    requires start <= off < buf.Length
    modifies buf
    ensures end == off + 1 && buf[..end] == old(buf[..off]) + [0] && buf[..start] == old(buf[..off][..start])
  {
    buf[off] := 0;
    end := off + 1;
    assert buf[..start] == old(buf[..start]) == old(buf[..off][..start]);
  }

  method WriteLabel(buf: array<byte>, off: nat, part: seq<byte>) returns (end: nat)
    requires |part| < 63 && off + 1 + |part| <= buf.Length
    modifies buf
    ensures end == off + 1 + |part| && buf[..end] == old(buf[..off]) + ([|part|] + part)
  {
    buf[off] := |part|;
    for i := 0 to |part|
      invariant buf[..off + 1 + i] == old(buf[..off]) + ([|part|] + part[..i])
    {
      ghost var before := buf[..off + 1 + i];
      buf[off + 1 + i] := part[i];
      assert buf[..off + 1 + (i + 1)] == before + [part[i]];
    }
    assert part[..|part|] == part;
    end := off + 1 + |part|;
  }

  // ---------- questions ----------

  datatype Asked = Asked(name: seq<byte>, qtype: QueryType, qclass: QueryClass)

  predicate Writable(a: Asked) {
    Short(Split(a.name))
  }

  function QuestionBytes(a: Asked): seq<byte>
    requires Writable(a)
  {
    LabelBytes(Split(a.name)) + [0] + U16Bytes(QueryTypeCode(a.qtype)) + U16Bytes(QueryClassCode(a.qclass))
  }

  function QuestionsBytes(asked: seq<Asked>): seq<byte>
    requires forall i :: 0 <= i < |asked| ==> Writable(asked[i])
  {
    if asked == [] then [] else QuestionBytes(asked[0]) + QuestionsBytes(asked[1..])
  }

  lemma {:induction false} QuestionsBytesAppend(asked: seq<Asked>, a: Asked)
    requires Writable(a) && forall i :: 0 <= i < |asked| ==> Writable(asked[i])
    ensures QuestionsBytes(asked + [a]) == QuestionsBytes(asked) + QuestionBytes(a)
  {
    if asked == [] {
      assert asked + [a] == [a];
    } else {
      assert (asked + [a])[1..] == asked[1..] + [a];
      QuestionsBytesAppend(asked[1..], a);
    }
  }

  function QueryHeader(id: u16, recursion: bool, questions: u16): H.Header {
    H.Header(id,
             H.Flags(true, H.StandardQuery, false, false, recursion, false, false, false, H.NoError),
             questions, 0, 0, 0)
  }

  // The twelve bytes of a query: the id, 1 for recursion or else 0, a zero, the number of questions, and
  // six zeros.
  function QueryBytes(id: u16, recursion: bool, questions: u16): seq<byte> {
    [id / 256, id % 256, if recursion then 1 else 0, 0, questions / 256, questions % 256, 0, 0, 0, 0, 0, 0]
  }

  lemma QueryHeaderBytes(id: u16, recursion: bool, questions: u16)
    ensures H.Bytes(QueryHeader(id, recursion, questions)) == QueryBytes(id, recursion, questions)
  {
    var h := QueryHeader(id, recursion, questions);
    assert H.Pack(h.flags) == if recursion then 0x0100 else 0;
  }

  // ---------- the round trip ----------

  ghost predicate ReadsAs(q: Question, a: Asked) {
    && q.qtype == a.qtype && q.qclass == a.qclass && !q.preferUnicast
    && Scanned(q.qname, |q.qname.original|)
    && Rendered(q.qname.labels, q.qname.original, |q.qname.original|, true) == a.name
  }

  ghost predicate CleanQuestion(a: Asked) {
    Writable(a) && Clean(Split(a.name))
  }

  ghost predicate AllClean(asked: seq<Asked>) {
    forall i :: 0 <= i < |asked| ==> Writable(asked[i]) && CleanQuestion(asked[i])
  }

  // The name of a written question.
  lemma NameAt(a: Asked, data: seq<byte>, off: nat, after: seq<byte>)
    requires CleanQuestion(a) && off <= |data| && data[off..] == QuestionBytes(a) + after
    ensures var labels := LabelBytes(Split(a.name)) + [0];
            && ScanSpec(data[off..], data) == Ok(Name(labels, data))
            && Scanned(Name(labels, data), |data|)
            && Rendered(labels, data, |data|, true) == a.name
  {
    var parts := Split(a.name);
    var labels := LabelBytes(parts) + [0];
    QuestionShape(a, after);
    var codes := U16Bytes(QueryTypeCode(a.qtype)) + (U16Bytes(QueryClassCode(a.qclass)) + after);
    PlainNameNotDangling(parts, codes, data, |data|, true);
    hide Walk, LabelBytes, Split, QuestionBytes, U16Bytes, Rendered, Dangling, Join, Clean;
    assert (labels + codes)[..|labels|] == labels;
    DisplayText(data[off..], data);
    JoinUndoesSplit(a.name);
  }

  // A written question: its name, its type and its class.
  lemma QuestionShape(a: Asked, after: seq<byte>)
    requires Writable(a)
    ensures var t, c := U16Bytes(QueryTypeCode(a.qtype)), U16Bytes(QueryClassCode(a.qclass));
            && |QuestionBytes(a)| == |LabelBytes(Split(a.name))| + 5
            && QuestionBytes(a) + after == (LabelBytes(Split(a.name)) + [0]) + (t + (c + after))
  {
    var labels := LabelBytes(Split(a.name)) + [0];
    var t, c := U16Bytes(QueryTypeCode(a.qtype)), U16Bytes(QueryClassCode(a.qclass));
    assert QuestionBytes(a) == labels + t + c;
    hide QuestionBytes, LabelBytes, Split;
    Regroup(labels + t, c, after);
    Regroup(labels, t, c + after);
  }

  lemma Behind(data: seq<byte>, off: nat, head: seq<byte>, t: seq<byte>, c: seq<byte>, after: seq<byte>)
    requires off <= |data| && data[off..] == head + (t + (c + after)) && |t| == |c| == 2
    ensures var at := off + |head|;
            && at + 4 <= |data| && data[at] == t[0] && data[at + 1] == t[1] && data[at + 2] == c[0] && data[at + 3] == c[1]
            && data[at + 4..] == after
  {
    var s := data[off..];
    var at := off + |head|;
    assert data[at] == s[|head|] && data[at + 1] == s[|head| + 1];
    assert data[at + 2] == s[|head| + 2] && data[at + 3] == s[|head| + 3];
    assert data[off + |head| + 4..] == s[|head| + 4..];
    assert s[|head|..] == t + (c + after);
    assert s[|head| + 4..] == s[|head|..][4..];
  }

  // The codes of a written question.
  lemma CodesAt(a: Asked, data: seq<byte>, off: nat, after: seq<byte>)
    requires Writable(a) && off <= |data| && data[off..] == QuestionBytes(a) + after
    ensures var at := off + |LabelBytes(Split(a.name))| + 1;
            && at + 4 == off + |QuestionBytes(a)| <= |data|
            && ReadU16(data, at) == QueryTypeCode(a.qtype) && ReadU16(data, at + 2) == QueryClassCode(a.qclass)
            && data[at + 4..] == after
  {
    var labels := LabelBytes(Split(a.name)) + [0];
    var t, c := U16Bytes(QueryTypeCode(a.qtype)), U16Bytes(QueryClassCode(a.qclass));
    QuestionShape(a, after);
    hide QuestionBytes, LabelBytes, Split;
    Behind(data, off, labels, t, c, after);
  }

  lemma QuestionReadsBack(a: Asked, data: seq<byte>, off: nat, after: seq<byte>)
    requires CleanQuestion(a) && off <= |data| && data[off..] == QuestionBytes(a) + after
    ensures var r := QuestionAt(data, off);
            && r.Ok? && ReadsAs(r.value.value, a)
            && r.value.end == off + |QuestionBytes(a)| <= |data| && data[r.value.end..] == after
  {
    hide QuestionBytes, LabelBytes, Split, Walk, ScanSpec, Rendered, ReadU16, U16Bytes, Clean;
    hide QueryTypeCode, QueryClassCode, ParseQueryType, ParseQueryClass;
    NameAt(a, data, off, after);
    CodesAt(a, data, off, after);
    QueryTypeRoundTrip(a.qtype, 0);
    QueryClassRoundTrip(a.qclass, 0);
    ClassCodeIsLow(a.qclass);
  }

  // A class code leaves the top bit free.
  lemma ClassCodeIsLow(qclass: QueryClass)
    ensures QueryClassCode(qclass) < 0x8000
  {
  }

  // What is read of a name with an empty or non-ASCII part: nothing, or only the parts before.
  lemma {:induction false} UncleanNameIsCut(parts: seq<seq<byte>>, rest: seq<byte>, original: seq<byte>, bound: nat, first: bool)
    requires Short(parts) && !Clean(parts)
    ensures var seg := LabelBytes(parts) + [0] + rest;
            var w := Walk(seg, original, bound);
            w.Ok? ==>
              && |w.value.labels| < |parts| && w.value.labels == parts[..|w.value.labels|]
              && !Dangling(seg, original, bound, first)
    decreases |parts|
  {
    var seg := LabelBytes(parts) + [0] + rest;
    FirstLabel(parts, rest);
    if parts[0] == [] {
      WalkRoot(seg, original, bound);
    } else {
      CleanCons(parts);
      WalkLabel(seg, parts[0], original, bound);
      if IsAscii(parts[0]) && Walk(seg, original, bound).Ok? {
        UncleanNameIsCut(parts[1..], rest, original, bound, false);
        DanglingAtLabel(seg, original, bound, first);
        ConsPrefix(parts, Walk(seg[|parts[0]| + 1..], original, bound).value.labels);
      }
    }
  }

  lemma ConsPrefix(parts: seq<seq<byte>>, labels: seq<seq<byte>>)
    requires |labels| < |parts| && labels == parts[1..][..|labels|]
    ensures [parts[0]] + labels == parts[..|labels| + 1]
  {
  }

  // A proper part of the labels, and not none of them, has a shorter text.
  lemma {:induction false} CutTextIsShorter(parts: seq<seq<byte>>, k: nat)
    requires 0 < k < |parts|
    ensures |Join(parts[..k])| < |Join(parts)|
  {
    CutTailIsShorter(parts[1..], k - 1);
    assert parts[..k][1..] == parts[1..][..k - 1];
  }

  lemma {:induction false} CutTailIsShorter(parts: seq<seq<byte>>, k: nat)
    requires k < |parts|
    ensures |Tail(parts[..k])| < |Tail(parts)|
  {
    if k > 0 {
      CutTailIsShorter(parts[1..], k - 1);
      assert parts[..k][1..] == parts[1..][..k - 1];
    }
  }

  // The question for the root, written from the empty text, has two zero bytes for its name, and what
  // is read as its type is not a type.
  lemma RootQuestionIsMisread(a: Asked, data: seq<byte>, off: nat, after: seq<byte>)
    requires a.name == [] && Writable(a) && off <= |data| && data[off..] == QuestionBytes(a) + after
    ensures QuestionAt(data, off) == Err(InvalidQueryType(0))
  {
    assert Split(a.name) == [[]] && LabelBytes([[]]) == [0];
    QuestionShape(a, after);
    var s := data[off..];
    var t := U16Bytes(QueryTypeCode(a.qtype));
    assert s == [0] + [0] + (t + (U16Bytes(QueryClassCode(a.qclass)) + after));
    assert s[0] == 0 && s[1] == 0 && s[2] == t[0] == 0;
    assert data[off] == s[0] && data[off + 1] == s[1] && data[off + 2] == s[2];
    hide QuestionBytes, LabelBytes, Split, U16Bytes;
    WalkRoot(s, data, |data|);
  }

  lemma UncleanQuestionIsMisread(a: Asked, data: seq<byte>, off: nat, after: seq<byte>)
    requires Writable(a) && !CleanQuestion(a) && off <= |data| && data[off..] == QuestionBytes(a) + after
    ensures var r := QuestionAt(data, off); r.Ok? ==> !ReadsAs(r.value.value, a)
  {
    if QuestionAt(data, off).Ok? {
      if a.name == [] {
        RootQuestionIsMisread(a, data, off, after);
      } else {
        UncleanNameReadsOther(a, data, off, after);
      }
    }
  }

  lemma UncleanNameReadsOther(a: Asked, data: seq<byte>, off: nat, after: seq<byte>)
    requires Writable(a) && !CleanQuestion(a) && off <= |data| && data[off..] == QuestionBytes(a) + after
    requires a.name != [] && ScanSpec(data[off..], data).Ok?
    ensures var name := ScanSpec(data[off..], data).value;
            Scanned(name, |data|) && Rendered(name.labels, data, |data|, true) != a.name
  {
    var parts := Split(a.name);
    QuestionShape(a, after);
    var codes := U16Bytes(QueryTypeCode(a.qtype)) + (U16Bytes(QueryClassCode(a.qclass)) + after);
    UncleanNameIsCut(parts, codes, data, |data|, true);
    JoinUndoesSplit(a.name);
    DisplayText(data[off..], data);
    var k := |Walk(data[off..], data, |data|).value.labels|;
    if k > 0 {
      CutTextIsShorter(parts, k);
    }
  }

  ghost predicate AllReadAs(qs: seq<Question>, asked: seq<Asked>) {
    |qs| == |asked| && forall i :: 0 <= i < |asked| ==> ReadsAs(qs[i], asked[i])
  }

  lemma AllReadAsCons(q: Question, qs: seq<Question>, asked: seq<Asked>)
    requires asked != []
    ensures AllReadAs([q] + qs, asked) <==> ReadsAs(q, asked[0]) && AllReadAs(qs, asked[1..])
  {
    var all := [q] + qs;
    if AllReadAs(all, asked) {
      assert all[0] == q;
      assert forall i :: 0 <= i < |qs| ==> qs[i] == all[i + 1];
    }
  }

  lemma AllCleanCons(asked: seq<Asked>)
    requires asked != []
    ensures AllClean(asked) <==> CleanQuestion(asked[0]) && AllClean(asked[1..])
  {
    assert forall i :: 0 < i < |asked| ==> asked[i] == asked[1..][i - 1];
  }

  lemma {:induction false} QuestionsReadBackIff(asked: seq<Asked>, data: seq<byte>, off: nat, after: seq<byte>)
    requires off <= |data| && (forall i :: 0 <= i < |asked| ==> Writable(asked[i]))
    requires data[off..] == QuestionsBytes(asked) + after
    ensures var r := Questions(data, off, |asked|);
            r.Ok? && AllReadAs(r.value.value, asked) <==> AllClean(asked)
    decreases |asked|
  {
    if asked != [] {
      var rest := QuestionsBytes(asked[1..]) + after;
      Regroup(QuestionBytes(asked[0]), QuestionsBytes(asked[1..]), after);
      AllCleanCons(asked);
      if CleanQuestion(asked[0]) {
        QuestionReadsBack(asked[0], data, off, rest);
        hide QuestionAt, ReadsAs, CleanQuestion, AllReadAs, AllClean, QuestionsBytes, QuestionBytes;
        var end := QuestionAt(data, off).value.end;
        QuestionsReadBackIff(asked[1..], data, end, after);
        if Questions(data, end, |asked| - 1).Ok? {
          AllReadAsCons(QuestionAt(data, off).value.value, Questions(data, end, |asked| - 1).value.value, asked);
        }
      } else {
        UncleanQuestionIsMisread(asked[0], data, off, rest);
        hide QuestionAt, ReadsAs, CleanQuestion, AllClean, QuestionsBytes, QuestionBytes;
      }
    }
  }

  // Main result: the parser reads a built message back as exactly the accepted questions, in order,
  // with the builder's id and recursion flag, whatever bytes follow them, exactly when every label of
  // every question is non-empty and ASCII.
  lemma BuildThenParse(id: u16, recursion: bool, asked: seq<Asked>, after: seq<byte>)
    requires |asked| < 0x1_0000 && forall i :: 0 <= i < |asked| ==> Writable(asked[i])
    ensures var r := PacketSpec(H.Bytes(QueryHeader(id, recursion, |asked|)) + QuestionsBytes(asked) + after);
            && (r.Ok? && AllReadAs(r.value.questions, asked) <==> AllClean(asked))
            && (r.Ok? ==>
                  && r.value.header == QueryHeader(id, recursion, |asked|) && |r.value.questions| == |asked|
                  && r.value.answers == [] && r.value.nameservers == [] && r.value.additional == [] && r.value.opt == None)
  {
    var h := QueryHeader(id, recursion, |asked|);
    var body := QuestionsBytes(asked) + after;
    var data := H.Bytes(h) + body;
    Regroup(H.Bytes(h), QuestionsBytes(asked), after);
    H.ParseUndoesWriteIff(h, body);
    assert data[12..] == body;
    hide QuestionsBytes, AllReadAs, AllClean, H.Bytes, Questions;
    QuestionsReadBackIff(asked, data, 12, after);
  }

  // ---------- the builder ----------

  datatype AddResult = Accepted | Refused | Panicked

  lemma QuestionLength(a: Asked)
    ensures Writable(a) ==> |QuestionBytes(a)| == |a.name| + 6
  {
    SplitLength(a.name);
  }

  // The panic is real: in the 512 bytes that a lookup writes its query to, exactly the hosts of 495 to
  // 499 bytes with short labels cause it.
  lemma PanicsIn512Iff(host: seq<byte>)
    requires Short(Split(host))
    ensures Fits(Split(host), 12, 512) && 12 + |host| + 6 > 512 <==> 495 <= |host| <= 499
  {
    FitsIff(host, 12, 512);
  }

  function LongHost(n: nat): (host: seq<byte>)
    ensures |host| == n
  {
    if n <= 61 then Repeat(0x61, n) else Repeat(0x61, 61) + [DOT] + LongHost(n - 62)
  }

  lemma {:induction false} LongHostIsShort(n: nat)
    ensures Short(Split(LongHost(n)))
  {
    if n <= 61 {
      SplitPlain(LongHost(n), []);
      assert LongHost(n) + [] == LongHost(n);
    } else {
      LongHostIsShort(n - 62);
      var rest := LongHost(n - 62);
      SplitPlain(Repeat(0x61, 61), [DOT] + rest);
      assert Repeat(0x61, 61) + [DOT] + rest == Repeat(0x61, 61) + ([DOT] + rest);
      assert ([DOT] + rest)[1..] == rest;
      assert Split([DOT] + rest) == [[]] + Split(rest);
    }
  }

  // Bytes without a dot in front of a text belong to its first part.
  lemma {:induction false} SplitPlain(plain: seq<byte>, rest: seq<byte>)
    requires DOT !in plain
    ensures Split(plain + rest) == [plain + Split(rest)[0]] + Split(rest)[1..]
  {
    if plain == [] {
      assert plain + rest == rest;
      assert Split(rest) == [Split(rest)[0]] + Split(rest)[1..];
      assert [] + Split(rest)[0] == Split(rest)[0];
    } else {
      SplitPlain(plain[1..], rest);
      assert (plain + rest)[1..] == plain[1..] + rest;
      assert plain == [plain[0]] + plain[1..];
      assert [plain[0]] + (plain[1..] + Split(rest)[0]) == plain + Split(rest)[0];
    }
  }

  // A message: a header, the accepted questions and, once the count is exhausted, the bytes of
  // questions that were refused after they had been written.
  ghost predicate Written(id: u16, recursion: bool, accepted: seq<Asked>, extra: seq<byte>, bytes: seq<byte>) {
    && |accepted| < 0x1_0000 && (forall i :: 0 <= i < |accepted| ==> Writable(accepted[i]))
    && (extra != [] ==> |accepted| == 0xFFFF)
    && bytes == H.Bytes(QueryHeader(id, recursion, |accepted|)) + QuestionsBytes(accepted) + extra
  }

  class Builder {
    const buf: array<byte>
    var off: nat

    ghost var started: bool
    ghost var id: u16
    ghost var recursion: bool
    ghost var accepted: seq<Asked>
    ghost var extra: seq<byte>

    ghost predicate Valid()
      reads this, buf
    {
      started ==> 12 <= off <= buf.Length && Written(id, recursion, accepted, extra, buf[..off])
    }

    constructor (buf: array<byte>)
      ensures Valid() && this.buf == buf && !started && off == 0 && accepted == []
    {
      this.buf, off, started, accepted, extra := buf, 0, false, [], [];
      id, recursion := 0, false;
    }

    method Start(id: u16, recursion: bool) returns (ok: bool)
      requires Valid()
      modifies this, buf
      ensures Valid() && ok == (buf.Length > 12)
      ensures ok ==> buf[..12] == [id / 256, id % 256, if recursion then 1 else 0, 0, 0, 0, 0, 0, 0, 0, 0, 0]
      ensures ok ==> started && this.id == id && this.recursion == recursion && accepted == [] && off == 12
    {
      if buf.Length <= 12 {
        return false;
      }
      H.Write(QueryHeader(id, recursion, 0), buf);
      QueryHeaderBytes(id, recursion, 0);
      off := 12;
      this.id, this.recursion, started, accepted, extra := id, recursion, true, [], [];
      return true;
    }

    // Refuses a name with a label of 63 bytes or more, or one that does not fit, and leaves the
    // message as it was. When 65535 questions are there already, the question is refused after it has
    // been written behind the others. So a refused call leaves the message as it was exactly when the
    // name does not fit. Panics exactly when the name fits without room for the terminator and the two
    // codes behind it.
    method AddQuestion(qname: seq<byte>, qtype: QueryType, qclass: QueryClass) returns (r: AddResult)
      requires Valid() && started
      modifies this, buf
      ensures Valid() && started && id == old(id) && recursion == old(recursion)
      ensures var fits, room := Fits(Split(qname), old(off), buf.Length), old(off) + |qname| + 6 <= buf.Length;
              && (r.Accepted? <==> fits && room && |old(accepted)| < 0xFFFF)
              && (r.Panicked? <==> fits && !room)
              && (r.Refused? ==> (off == old(off) && buf[..off] == old(buf[..off]) <==> !fits))
      ensures accepted == if r.Accepted? then old(accepted) + [Asked(qname, qtype, qclass)] else old(accepted)
      ensures Fits(Split(qname), old(off), buf.Length) && old(off) + |qname| + 6 <= buf.Length ==>
        var a := Asked(qname, qtype, qclass);
        && Writable(a) && off == old(off) + |QuestionBytes(a)| <= buf.Length
        && (|old(accepted)| == 0xFFFF ==> buf[..off] == old(buf[..off]) + QuestionBytes(a))
      ensures r.Panicked? ==> off == old(off) && buf[..off] == old(buf[..off])
    {
      var a := Asked(qname, qtype, qclass);
      ghost var before := buf[..off];
      WrittenCount(id, recursion, accepted, extra, before);
      QuestionLength(a);
      hide Written, QuestionBytes, Split, Fits, Writable;
      var end := WriteQuestion(buf, off, a);
      if end.GaveUp? {
        return Refused;
      }
      if end.Panics? {
        return Panicked;
      }
      off := end.end;
      var counted := Count(a, before);
      return if counted then Accepted else Refused;
    }

    // Raises the question count for a question just written, unless the count is at its limit.
    method Count(a: Asked, ghost before: seq<byte>) returns (ok: bool)
      requires started && Written(id, recursion, accepted, extra, before)
      requires Writable(a) && off <= buf.Length && buf[..off] == before + QuestionBytes(a)
      modifies this`accepted, this`extra, buf
      ensures Valid() && ok == (|old(accepted)| < 0xFFFF)
      ensures accepted == if ok then old(accepted) + [a] else old(accepted)
      ensures !ok ==> buf[..off] == old(buf[..off])
    {
      WrittenCount(id, recursion, accepted, extra, before);
      NotCounted(id, recursion, accepted, extra, before, a);
      CountedOnce(id, recursion, accepted, extra, before, a);
      hide Written, QuestionBytes, U16Bytes, ReadU16, Writable, Split;
      assert buf[..6] == buf[..off][..6];
      assert (before + QuestionBytes(a))[..6] == before[..6];
      var oldq := ReadU16(buf[..6], 4);
      if oldq == 65535 {
        extra := extra + QuestionBytes(a);
        return false;
      }
      IncrementCount(buf, off, oldq);
      accepted := accepted + [a];
      return true;
    }

    // The length of the message.
    method Finish() returns (len: nat)
      requires Valid() && started
      ensures 12 <= len == off <= buf.Length && |accepted| < 0x1_0000
      ensures buf[..12] == QueryBytes(id, recursion, |accepted|)
      ensures var r := PacketSpec(buf[..len]);
              && (r.Ok? && AllReadAs(r.value.questions, accepted) <==> AllClean(accepted))
              && (r.Ok? ==> r.value.header == QueryHeader(id, recursion, |accepted|))
    {
      len := off;
      hide H.Bytes, QuestionsBytes, PacketSpec, AllClean, AllReadAs;
      BuildThenParse(id, recursion, accepted, extra);
      QueryHeaderBytes(id, recursion, |accepted|);
      assert buf[..12] == buf[..off][..12];
    }
  }

  method IncrementCount(buf: array<byte>, ghost off: nat, oldq: u16)
    requires 6 <= off <= buf.Length && oldq < 65535
    modifies buf
    ensures buf[..off] == old(buf[..off][..4]) + U16Bytes(oldq + 1) + old(buf[..off][6..])
  {
    H.WriteU16(buf, 4, oldq + 1);
  }

  // Writes a whole question, gives up inside its name, or panics for want of room behind its labels.
  method WriteQuestion(buf: array<byte>, start: nat, a: Asked) returns (r: WriteResult)
    requires start <= buf.Length
    modifies buf
    ensures r.GaveUp? <==> !Fits(Split(a.name), start, buf.Length)
    ensures r.Panics? <==> Fits(Split(a.name), start, buf.Length) && start + |a.name| + 6 > buf.Length
    ensures r.Wrote? ==> Writable(a) && r.end == start + |QuestionBytes(a)| <= buf.Length
    ensures r.Wrote? ==> buf[..r.end] == old(buf[..start]) + QuestionBytes(a)
    ensures buf[..start] == old(buf[..start])
  {
    var end := WriteName(buf, start, a.name);
    if !end.Wrote? {
      return end;
    }
    SplitLength(a.name);
    hide Split, LabelBytes, Fits;
    if end.end + 4 > buf.Length {
      return Panics;
    }
    assert buf[start..end.end] == buf[..end.end][start..];
    var off := WriteCodes(buf, start, end.end, a);
    assert buf[..off] == buf[..start] + buf[start..off];
    r := Wrote(off);
  }

  // Writes the type and class of a question behind its name.
  method WriteCodes(buf: array<byte>, ghost start: nat, end: nat, a: Asked) returns (off: nat)
    requires Writable(a) && end == start + |LabelBytes(Split(a.name))| + 1 && end + 4 <= buf.Length
    requires buf[start..end] == LabelBytes(Split(a.name)) + [0]
    modifies buf
    ensures off == end + 4 && buf[..start] == old(buf[..start]) && buf[start..off] == QuestionBytes(a)
  {
    off := end;
    H.WriteU16(buf, off, QueryTypeCode(a.qtype));
    off := off + 2;
    H.WriteU16(buf, off, QueryClassCode(a.qclass));
    off := off + 2;
    assert buf[start..end] == old(buf[start..end]);
    assert buf[end..off] == U16Bytes(QueryTypeCode(a.qtype)) + U16Bytes(QueryClassCode(a.qclass));
    assert buf[start..off] == buf[start..end] + buf[end..off];
  }

  lemma WrittenCount(id: u16, recursion: bool, accepted: seq<Asked>, extra: seq<byte>, bytes: seq<byte>)
    requires Written(id, recursion, accepted, extra, bytes)
    ensures |accepted| < 0x1_0000 && |bytes| >= 12 && ReadU16(bytes[..6], 4) == |accepted|
  {
    var h := QueryHeader(id, recursion, |accepted|);
    H.BytesFields(h, []);
    assert bytes[4] == (H.Bytes(h) + [])[4] && bytes[5] == (H.Bytes(h) + [])[5];
  }

  lemma NotCounted(id: u16, recursion: bool, accepted: seq<Asked>, extra: seq<byte>, bytes: seq<byte>, a: Asked)
    requires Written(id, recursion, accepted, extra, bytes) && Writable(a)
    ensures |accepted| == 0xFFFF ==> Written(id, recursion, accepted, extra + QuestionBytes(a), bytes + QuestionBytes(a))
  {
    Regroup(H.Bytes(QueryHeader(id, recursion, |accepted|)) + QuestionsBytes(accepted), extra, QuestionBytes(a));
  }

  // Appending a question to a written prefix, then counting it.
  lemma CountedOnce(id: u16, recursion: bool, accepted: seq<Asked>, extra: seq<byte>, bytes: seq<byte>, a: Asked)
    requires Written(id, recursion, accepted, extra, bytes) && Writable(a)
    ensures var all := bytes + QuestionBytes(a);
            |accepted| < 0xFFFF ==>
              |all| >= 12 && Written(id, recursion, accepted + [a], extra, all[..4] + U16Bytes(|accepted| + 1) + all[6..])
  {
    if |accepted| < 0xFFFF {
      var h := QueryHeader(id, recursion, |accepted|);
      CountBytes(h, |accepted| + 1);
      QuestionsBytesAppend(accepted, a);
      Splice(H.Bytes(h), U16Bytes(|accepted| + 1), QuestionsBytes(accepted), QuestionBytes(a));
    }
  }

  lemma Splice(head: seq<byte>, count: seq<byte>, body: seq<byte>, more: seq<byte>)
    requires |head| == 12 && |count| == 2
    ensures var all := head + body + [] + more;
            all[..4] + count + all[6..] == (head[..4] + count + head[6..]) + (body + more) + []
  {
  }

  // Where the question count stands in a header: changing it changes nothing else.
  lemma CountBytes(h: H.Header, n: u16)
    ensures H.Bytes(h.(questions := n)) == H.Bytes(h)[..4] + U16Bytes(n) + H.Bytes(h)[6..]
  {
  }
}
