// Why a name is refused: the scanner's error is that of the first place where the name, followed through
// its pointers, does not go on.
module DnsNameErrors {
  import opened DnsTypes
  import opened DnsName

  // A whole, non-empty ASCII label starts here.
  predicate LabelHere(seg: seq<byte>) {
    seg != [] && 0 < seg[0] < 64 && |seg| > seg[0] as int && forall i :: 1 <= i <= seg[0] as int ==> seg[i] < 128
  }

  // What follows the labels at the front of some bytes.
  function AfterLabels(seg: seq<byte>): seq<byte>
    decreases |seg|
  {
    if LabelHere(seg) then AfterLabels(seg[seg[0] as int + 1..]) else seg
  }

  function PointsTo(seg: seq<byte>): nat
    requires |seg| >= 2 && seg[0] >= 192
  {
    (seg[0] as int - 192) * 256 + seg[1] as int
  }

  // The labels of some bytes end in a pointer to an offset of the message.
  predicate Jumps(seg: seq<byte>, original: seq<byte>, off: nat) {
    var rest := AfterLabels(seg);
    |rest| >= 2 && rest[0] >= 192 && PointsTo(rest) == off < |original|
  }

  // The hops of a name: each leads to the next, and is lower than the one before.
  ghost predicate Follows(seg: seq<byte>, original: seq<byte>, bound: nat, hops: seq<nat>)
    decreases |hops|
  {
    hops == [] || (Jumps(seg, original, hops[0]) && hops[0] < bound && Follows(original[hops[0]..], original, hops[0], hops[1..]))
  }

  function Landing(seg: seq<byte>, original: seq<byte>, hops: seq<nat>): seq<byte>
    requires forall i :: 0 <= i < |hops| ==> hops[i] <= |original|
  {
    AfterLabels(if hops == [] then seg else original[hops[|hops| - 1]..])
  }

  // The name does not go on at these bytes, and why.
  predicate Fails(rest: seq<byte>, original: seq<byte>, bound: nat, e: Error) {
    match e
    case UnexpectedEOF =>
      || rest == [] || (0 < rest[0] < 64 && |rest| <= rest[0] as int)
      || (rest[0] >= 192 && (|rest| < 2 || PointsTo(rest) >= |original|))
    case BadPointer => |rest| >= 2 && rest[0] >= 192 && bound <= PointsTo(rest) < |original|
    case LabelIsNotAscii => rest != [] && 0 < rest[0] < 64 && |rest| > rest[0] as int && exists i :: 1 <= i <= rest[0] as int && rest[i] >= 128
    case UnknownLabelFormat => rest != [] && 64 <= rest[0] < 192
    case _ => false
  }

  // ---------- the walk, along its labels and hops ----------

  lemma AsciiHere(seg: seq<byte>)
    requires seg != [] && |seg| > seg[0] as int
    ensures IsAscii(seg[1..seg[0] as int + 1]) <==> forall i :: 1 <= i <= seg[0] as int ==> seg[i] < 128
  {
    var text := seg[1..seg[0] as int + 1];
    if IsAscii(text) {
      forall i | 1 <= i <= seg[0] as int ensures seg[i] < 128 {
        assert text[i - 1] == seg[i];
      }
    }
  }

  // Labels do not change the error of what follows them.
  lemma {:induction false} ErrorPastLabels(seg: seq<byte>, original: seq<byte>, bound: nat, e: Error)
    ensures Walk(seg, original, bound) == Err(e) <==> Walk(AfterLabels(seg), original, bound) == Err(e)
    decreases |seg|
  {
    if LabelHere(seg) {
      AsciiHere(seg);
      LengthOrPointer(seg);
      WalkAtLabel(seg, original, bound);
      ErrorPastLabels(seg[seg[0] as int + 1..], original, bound, e);
    }
  }

  lemma {:induction false} NoLabelAfter(seg: seq<byte>)
    ensures !LabelHere(AfterLabels(seg))
    decreases |seg|
  {
    if LabelHere(seg) {
      NoLabelAfter(seg[seg[0] as int + 1..]);
    }
  }

  // The walk at bytes that start no whole label.
  lemma WalkFails(rest: seq<byte>, original: seq<byte>, bound: nat, e: Error)
    requires !LabelHere(rest)
    ensures var jumps := |rest| >= 2 && rest[0] >= 192 && PointsTo(rest) < |original| && PointsTo(rest) < bound;
            Walk(rest, original, bound) == Err(e) <==>
              Fails(rest, original, bound, e) || (jumps && Walk(original[PointsTo(rest)..], original, PointsTo(rest)) == Err(e))
  {
    if rest != [] {
      LengthOrPointer(rest);
      if |rest| > rest[0] as int {
        AsciiHere(rest);
      }
    }
    hide IsAscii, IsLabel, IsPointer, Target;
  }

  lemma {:induction false} ErrorHasPlace(seg: seq<byte>, original: seq<byte>, bound: nat, e: Error) returns (hops: seq<nat>)
    requires Walk(seg, original, bound) == Err(e)
    ensures Follows(seg, original, bound, hops) && forall i :: 0 <= i < |hops| ==> hops[i] <= |original|
    ensures Fails(Landing(seg, original, hops), original, if hops == [] then bound else hops[|hops| - 1], e)
    decreases bound
  {
    var rest := AfterLabels(seg);
    ErrorPastLabels(seg, original, bound, e);
    NoLabelAfter(seg);
    WalkFails(rest, original, bound, e);
    if Fails(rest, original, bound, e) {
      hops := [];
    } else {
      var off := PointsTo(rest);
      var more := ErrorHasPlace(original[off..], original, off, e);
      hops := [off] + more;
      assert hops[1..] == more;
    }
  }

  lemma {:induction false} PlaceGivesError(seg: seq<byte>, original: seq<byte>, bound: nat, e: Error, hops: seq<nat>)
    requires Follows(seg, original, bound, hops) && forall i :: 0 <= i < |hops| ==> hops[i] <= |original|
    requires Fails(Landing(seg, original, hops), original, if hops == [] then bound else hops[|hops| - 1], e)
    ensures Walk(seg, original, bound) == Err(e)
    decreases |hops|
  {
    var rest := AfterLabels(seg);
    ErrorPastLabels(seg, original, bound, e);
    NoLabelAfter(seg);
    WalkFails(rest, original, bound, e);
    if hops != [] {
      var off, more := hops[0], hops[1..];
      assert more != [] ==> more[|more| - 1] == hops[|hops| - 1];
      PlaceGivesError(original[off..], original, off, e, more);
    }
  }

  ghost predicate RefusedAt(data: seq<byte>, original: seq<byte>, e: Error, hops: seq<nat>) {
    && Follows(data, original, |original|, hops) && (forall i :: 0 <= i < |hops| ==> hops[i] <= |original|)
    && Fails(Landing(data, original, hops), original, if hops == [] then |original| else hops[|hops| - 1], e)
  }

  // Main result for refused names: the scanner fails with an error exactly when there are hops, each
  // lower than the one before, behind whose last labels the name fails for that reason. In particular a
  // pointer is bad exactly when it does not lead below the last hop, and the first one never is.
  lemma ScanErrIff(data: seq<byte>, original: seq<byte>, e: Error)
    ensures ScanSpec(data, original) == Err(e) <==> exists hops :: RefusedAt(data, original, e, hops)
  {
    if Walk(data, original, |original|) == Err(e) {
      var hops := ErrorHasPlace(data, original, |original|, e);
      assert RefusedAt(data, original, e, hops);
    }
    forall hops | RefusedAt(data, original, e, hops) ensures Walk(data, original, |original|) == Err(e) {
      PlaceGivesError(data, original, |original|, e, hops);
    }
  }

  // A pointer to itself, and two that lead to each other.
  lemma BadPointers()
    ensures ScanSpec([192, 2, 192, 2], [192, 2, 192, 2]) == Err(BadPointer)
    ensures ScanSpec([192, 2, 192, 4, 192, 2], [192, 2, 192, 4, 192, 2]) == Err(BadPointer)
  {
    hide ScanSpec;
    BadHop([192, 2, 192, 2]);
    BadHop([192, 2, 192, 4, 192, 2]);
  }

  // A pointer to the two bytes behind it, which point to themselves or on.
  lemma BadHop(msg: seq<byte>)
    requires |msg| >= 4 && msg[0] == msg[2] == 192 && msg[1] == 2 && 2 <= msg[3] as int < |msg|
    ensures ScanSpec(msg, msg) == Err(BadPointer)
  {
    var rest := msg[2..];
    assert AfterLabels(msg) == msg && AfterLabels(rest) == rest;
    assert Follows(rest, msg, 2, []);
    assert [2][1..] == [];
    assert RefusedAt(msg, msg, BadPointer, [2]);
    ScanErrIff(msg, msg, BadPointer);
  }
}
