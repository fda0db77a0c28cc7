// Messages and names that the repository's own tests parse.
module DnsExamples {
  import opened DnsTypes
  import opened DnsName
  import opened DnsParser
  import opened DnsBuilder
  import H = DnsHeader

  // "example.com"
  const EXAMPLE: seq<byte> := [101, 120, 97, 109, 112, 108, 101, 46, 99, 111, 109]

  const EXAMPLE_QUERY: seq<byte> :=
    [6, 37, 1, 0, 0, 1, 0, 0, 0, 0, 0, 0, 7, 101, 120, 97, 109, 112, 108, 101, 3, 99, 111, 109, 0, 0, 1, 0, 1]

  // A host of two labels.
  lemma TwoParts(a: seq<byte>, b: seq<byte>)
    requires 46 !in a && 46 !in b
    ensures Split(a + [46] + b) == [a, b]
  {
    assert [a, b][1..] == [b] && [b][1..] == [];
    assert Tail([b]) == [46] + b + [];
    assert a + ([46] + b) == a + [46] + b;
    hide Split;
    SplitIff(a + [46] + b, [a, b]);
  }

  lemma TwoLabels(a: seq<byte>, b: seq<byte>)
    requires 0 < |a| < 63 && 0 < |b| < 63 && IsAscii(a) && IsAscii(b)
    ensures Short([a, b]) && Clean([a, b]) && LabelBytes([a, b]) == [|a|] + a + ([|b|] + b)
  {
    assert [a, b][1..] == [b] && [b][1..] == [];
    assert LabelBytes([b]) == [|b|] + b + LabelBytes([]);
  }

  // The bytes of a query for the address of such a host.
  lemma QueryOfTwo(id: u16, a: seq<byte>, b: seq<byte>)
    requires 0 < |a| < 63 && 0 < |b| < 63 && IsAscii(a) && IsAscii(b) && 46 !in a && 46 !in b
    ensures var asked := Asked(a + [46] + b, A, IN);
            && Writable(asked) && CleanQuestion(asked)
            && QuestionBytes(asked) == [|a|] + a + ([|b|] + b) + [0] + [0, 1] + [0, 1]
            && var data := H.Bytes(QueryHeader(id, true, 1)) + QuestionBytes(asked);
               var r := PacketSpec(data);
               && data == QueryBytes(id, true, 1) + QuestionBytes(asked)
               && r.Ok? && r.value.header == QueryHeader(id, true, 1) && |r.value.questions| == 1
               && ReadsAs(r.value.questions[0], asked) && r.value.answers == []
  {
    var a1 := Asked(a + [46] + b, A, IN);
    TwoParts(a, b);
    TwoLabels(a, b);
    hide Split, LabelBytes, H.Bytes, PacketSpec, ReadsAs, QueryHeader, QueryBytes;
    QueryHeaderBytes(id, true, 1);
    assert U16Bytes(1) == [0, 1];
    var asked := [a1];
    assert asked[1..] == [];
    assert QuestionsBytes(asked) == QuestionBytes(a1) + [] == QuestionBytes(a1);
    BuildThenParse(id, true, asked, []);
    assert H.Bytes(QueryHeader(id, true, 1)) + QuestionBytes(a1) + [] == H.Bytes(QueryHeader(id, true, 1)) + QuestionBytes(a1);
    assert AllClean(asked);
    assert asked[0] == a1;
  }

  // The query for the address of example.com, byte for byte, and what the parser reads in it.
  lemma ExampleQuery()
    ensures var r := PacketSpec(EXAMPLE_QUERY);
            && r.Ok? && r.value.header == QueryHeader(1573, true, 1) && |r.value.questions| == 1
            && ReadsAs(r.value.questions[0], Asked(EXAMPLE, A, IN)) && r.value.answers == []
  {
    var a, b := ExampleBytes();
    hide *;
    QueryOfTwo(1573, a, b);
  }

  lemma ExampleBytes() returns (a: seq<byte>, b: seq<byte>)
    ensures 0 < |a| < 63 && 0 < |b| < 63 && IsAscii(a) && IsAscii(b) && 46 !in a && 46 !in b
    ensures a + [46] + b == EXAMPLE
    ensures QueryBytes(1573, true, 1) + ([|a|] + a + ([|b|] + b) + [0] + [0, 1] + [0, 1]) == EXAMPLE_QUERY
  {
    a, b := [101, 120, 97, 109, 112, 108, 101], [99, 111, 109];
  }

  // "xx", then "yy" with a pointer to it, then "zz" with a pointer to that.
  const NESTED: seq<byte> := [2, 120, 120, 0, 2, 121, 121, 192, 0, 2, 122, 122, 192, 4]

  // A scanned name at some bytes prints as this text.
  ghost predicate Prints(seg: seq<byte>, original: seq<byte>, bound: nat, text: seq<byte>) {
    Walk(seg, original, bound).Ok? && Rendered(seg, original, bound, true) == text
  }

  lemma NestedNames()
    ensures Prints(NESTED, NESTED, 14, [120, 120])
    ensures Prints(NESTED[4..], NESTED, 14, [121, 121, 46, 120, 120])
    ensures Prints(NESTED[9..], NESTED, 14, [122, 122, 46, 121, 121, 46, 120, 120])
  {
    hide Prints, Walk, Rendered;
    assert NESTED[0..] == NESTED;
    TwoLetters(NESTED, NESTED, 14, 120);
    TwoLetters(NESTED, NESTED, 0, 120);
    TwoLettersThen(NESTED[4..], NESTED, 14, 121, 0, [120, 120]);
    TwoLettersThen(NESTED[4..], NESTED, 4, 121, 0, [120, 120]);
    assert [121, 121, 46] + [120, 120] == [121, 121, 46, 120, 120];
    TwoLettersThen(NESTED[9..], NESTED, 14, 122, 4, [121, 121, 46, 120, 120]);
    assert [122, 122, 46] + [121, 121, 46, 120, 120] == [122, 122, 46, 121, 121, 46, 120, 120];
  }

  lemma TwoLetters(seg: seq<byte>, original: seq<byte>, bound: nat, x: byte)
    requires |seg| >= 4 && seg[0] == 2 && seg[1] == seg[2] == x < 128 && seg[3] == 0
    ensures Prints(seg, original, bound, [x, x])
  {
    var rest := seg[3..];
    assert Walk(rest, original, bound) == Ok(Walked([], 1));
    assert seg[1..3] == [x, x];
    assert Rendered(rest, original, bound, false) == [];
  }

  lemma TwoLettersThen(seg: seq<byte>, original: seq<byte>, bound: nat, x: byte, off: nat, text: seq<byte>)
    requires |seg| >= 5 && seg[0] == 2 && seg[1] == seg[2] == x < 128 && seg[3] == 192 && seg[4] as int == off
    requires off < bound && off < |original| && Prints(original[off..], original, off, text)
    ensures Prints(seg, original, bound, [x, x, 46] + text)
  {
    var rest := seg[3..];
    LengthOrPointer(rest);
    assert Target(rest) == off;
    assert Walk(rest, original, bound).Ok?;
    assert Rendered(rest, original, bound, false) == [46] + text;
    assert seg[1..3] == [x, x];
    assert Rendered(seg, original, bound, true) == [x, x] + ([46] + text);
  }
}
