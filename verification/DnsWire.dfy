// What a packet means on the wire: the parser accepts a message, with a certain meaning, exactly when
// the message holds the wire form of that meaning.
module DnsWire {
  import opened Wrappers
  import opened DnsTypes
  import opened DnsName
  import opened DnsRData
  import opened DnsParser
  import H = DnsHeader

  // ---------- one question ----------

  function TopBit(flag: bool): nat {
    if flag then 0x8000 else 0
  }

  ghost predicate QuestionEncoded(q: Question, data: seq<byte>, off: nat, end: nat) {
    && off <= |data| && NameHeads(q.qname, data, data[off..])
    && var at := off + |q.qname.labels|;
       && ShortAt(data, at, QueryTypeCode(q.qtype)) && ShortAt(data, at + 2, QueryClassCode(q.qclass) + TopBit(q.preferUnicast))
       && end == at + 4
  }

  lemma QClassIff(value: u16, flag: bool, c: QueryClass)
    ensures ParseQClassCode(value) == Ok((flag, c)) <==> value == QueryClassCode(c) + TopBit(flag)
  {
    QueryClassRoundTrip(c, value % 0x8000);
    assert QueryClassCode(c) < 0x8000;
    hide QueryClassCode, ParseQueryClass;
  }

  lemma QuestionAcceptsIff(data: seq<byte>, off: nat, q: Question, end: nat)
    requires off <= |data|
    ensures QuestionAt(data, off) == Ok(At(q, end)) <==> QuestionEncoded(q, data, off, end)
  {
    hide Walk, ScanSpec, NameHeads, ReadU16, ShortAt, ParseQueryType, ParseQClassCode, QueryTypeCode, QueryClassCode;
    ScanIff(data[off..], data, q.qname);
    if ScanSpec(data[off..], data) == Ok(q.qname) {
      ScanLength(data[off..], data);
      var at := off + |q.qname.labels|;
      QClassCodeIsShort(q.qclass, q.preferUnicast);
      if at + 4 <= |data| {
        ShortIff(data, at, QueryTypeCode(q.qtype));
        ShortIff(data, at + 2, QueryClassCode(q.qclass) + TopBit(q.preferUnicast));
        QueryTypeRoundTrip(q.qtype, ReadU16(data, at));
        QClassIff(ReadU16(data, at + 2), q.preferUnicast, q.qclass);
      } else {
        NoShort(data, at + 2, QueryClassCode(q.qclass) + TopBit(q.preferUnicast));
      }
    }
  }

  lemma QClassCodeIsShort(c: QueryClass, flag: bool)
    ensures QueryClassCode(c) + TopBit(flag) < 0x1_0000
  {
  }

  lemma NoShort(data: seq<byte>, at: nat, n: nat)
    requires at + 2 > |data| && n < 0x1_0000
    ensures !ShortAt(data, at, n)
  {
  }

  // ---------- one record ----------

  // A time to live with the top bit set counts as zero.
  function ClampTtl(ttl: nat): (r: nat)
    ensures r == if ttl >= 0x8000_0000 then 0 else ttl
  {
    if ttl > 0x7FFF_FFFF then 0 else ttl
  }

  // A record's fixed part stands behind its name, and its data fills what its length says.
  ghost predicate RecordWire(rec: ResourceRecord, typ: Type, ttl: nat, data: seq<byte>, off: nat, end: nat) {
    && off <= |data| && NameHeads(rec.name, data, data[off..])
    && var at := off + |rec.name.labels|;
       && ShortAt(data, at, TypeCode(typ)) && ShortAt(data, at + 2, ClassCode(rec.cls) + TopBit(rec.multicastUnique))
       && WordAt(data, at + 4, ttl) && rec.ttl == ClampTtl(ttl)
       && DataAt(data, at + 8, end) && Encoded(typ, rec.data, data[at + 10..end], data)
  }

  // Two bytes that give the length of what stands behind them, up to `end`.
  ghost predicate DataAt(data: seq<byte>, at: nat, end: nat) {
    at + 2 <= end <= |data| && end - (at + 2) < 0x1_0000 && ShortAt(data, at, end - (at + 2))
  }

  ghost predicate RecordEncoded(rec: ResourceRecord, data: seq<byte>, off: nat, end: nat) {
    exists typ: Type, ttl: nat :: RecordWire(rec, typ, ttl, data, off, end)
  }

  lemma ClassFlagIff(value: u16, flag: bool, c: Class)
    ensures ParseClassCode(value) == Ok((flag, c)) <==> value == ClassCode(c) + TopBit(flag)
  {
    ClassIff(value % 0x8000, c);
    assert ClassCode(c) < 0x8000;
    hide ClassCode, ParseClass;
  }

  lemma ClassCodeIsShort(c: Class, flag: bool)
    ensures ClassCode(c) + TopBit(flag) < 0x1_0000
  {
  }

  lemma DataIff(data: seq<byte>, at: nat, end: nat)
    requires at + 2 <= |data|
    ensures DataAt(data, at, end) <==> end == at + 2 + ReadU16(data, at) <= |data|
  {
    if at + 2 <= end <= |data| && end - (at + 2) < 0x1_0000 {
      ShortIff(data, at, end - (at + 2));
    }
    hide ReadU16, ShortAt;
  }

  // The fields of a record as the parser reads them.
  ghost predicate RecordRead(rec: ResourceRecord, typ: Type, ttl: nat, data: seq<byte>, off: nat, end: nat)
    requires off <= |data|
  {
    && ScanSpec(data[off..], data) == Ok(rec.name)
    && var at := off + |rec.name.labels|;
       && at + 10 <= |data|
       && ParseType(ReadU16(data, at)) == Ok(typ) && ParseClassCode(ReadU16(data, at + 2)) == Ok((rec.multicastUnique, rec.cls))
       && ReadU32(data, at + 4) == ttl && rec.ttl == ClampTtl(ttl)
       && end == at + 10 + ReadU16(data, at + 8) <= |data|
       && RDataSpec(typ, data[at + 10..end], data) == Ok(rec.data)
  }

  lemma RecordReadIff(data: seq<byte>, off: nat, rec: ResourceRecord, end: nat)
    requires off <= |data|
    ensures RecordAt(data, off) == Ok(At(rec, end)) <==> exists typ: Type, ttl: nat :: RecordRead(rec, typ, ttl, data, off, end)
  {
    hide Walk, ScanSpec, ReadU16, ReadU32, ParseType, ParseClassCode, RDataSpec;
    if RecordAt(data, off) == Ok(At(rec, end)) {
      var at := off + |rec.name.labels|;
      assert RecordRead(rec, ParseType(ReadU16(data, at)).value, ReadU32(data, at + 4), data, off, end);
    }
  }

  lemma WireIsRead(data: seq<byte>, off: nat, rec: ResourceRecord, typ: Type, ttl: nat, end: nat)
    requires off <= |data|
    ensures RecordWire(rec, typ, ttl, data, off, end) <==> RecordRead(rec, typ, ttl, data, off, end)
  {
    hide Walk, ScanSpec, NameHeads, ReadU16, ReadU32, ShortAt, WordAt, ParseType, ParseClassCode, TypeCode, ClassCode;
    hide RDataSpec, Encoded, DataAt;
    ScanIff(data[off..], data, rec.name);
    if ScanSpec(data[off..], data) == Ok(rec.name) {
      ScanLength(data[off..], data);
      var at := off + |rec.name.labels|;
      if at + 10 <= |data| {
        FixedPartIff(data, at, rec, typ, ttl);
        DataIff(data, at + 8, end);
        if at + 10 <= end <= |data| {
          RDataAcceptsIff(typ, data[at + 10..end], data, rec.data);
        }
      } else {
        NoData(data, at + 8, end);
      }
    }
  }

  lemma NoData(data: seq<byte>, at: nat, end: nat)
    requires at + 2 > |data|
    ensures !DataAt(data, at, end)
  {
  }

  lemma FixedPartIff(data: seq<byte>, at: nat, rec: ResourceRecord, typ: Type, ttl: nat)
    requires at + 10 <= |data|
    ensures ShortAt(data, at, TypeCode(typ)) <==> ParseType(ReadU16(data, at)) == Ok(typ)
    ensures ClassCode(rec.cls) + TopBit(rec.multicastUnique) < 0x1_0000
    ensures ShortAt(data, at + 2, ClassCode(rec.cls) + TopBit(rec.multicastUnique)) <==>
            ParseClassCode(ReadU16(data, at + 2)) == Ok((rec.multicastUnique, rec.cls))
    ensures WordAt(data, at + 4, ttl) <==> ReadU32(data, at + 4) == ttl
  {
    hide ReadU16, ReadU32, ShortAt, WordAt, ParseType, ParseClassCode, TypeCode, ClassCode;
    ShortIff(data, at, TypeCode(typ));
    TypeIff(ReadU16(data, at), typ);
    ClassCodeIsShort(rec.cls, rec.multicastUnique);
    ShortIff(data, at + 2, ClassCode(rec.cls) + TopBit(rec.multicastUnique));
    ClassFlagIff(ReadU16(data, at + 2), rec.multicastUnique, rec.cls);
    WordIff(data, at + 4, ttl);
  }

  // A record is accepted, with a certain meaning and length, exactly when its wire form stands there.
  lemma RecordAcceptsIff(data: seq<byte>, off: nat, rec: ResourceRecord, end: nat)
    requires off <= |data|
    ensures RecordAt(data, off) == Ok(At(rec, end)) <==> RecordEncoded(rec, data, off, end)
  {
    RecordReadIff(data, off, rec, end);
    hide RecordWire, RecordRead, RecordAt;
    forall typ: Type, ttl: nat ensures RecordWire(rec, typ, ttl, data, off, end) <==> RecordRead(rec, typ, ttl, data, off, end) {
      WireIsRead(data, off, rec, typ, ttl, end);
    }
  }

  // ---------- the OPT record ----------

  ghost predicate OptEncoded(opt: OptRecord, data: seq<byte>, off: nat, end: nat) {
    && OptStartsAt(data, off) && off + 11 <= |data|
    && ShortAt(data, off + 3, opt.udp) && data[off + 5] == opt.extrcode && data[off + 6] == opt.version
    && ShortAt(data, off + 7, opt.flags) && DataAt(data, off + 9, end) && opt.data == Unknown(data[off + 11..end])
  }

  // An OPT record is one for the root, with the code of its type.
  lemma OptStartsIff(data: seq<byte>, off: nat)
    ensures OptStartsAt(data, off) <==> off < |data| && data[off] == 0 && ShortAt(data, off + 1, TypeCode(TypeOPT))
  {
    if off + 3 <= |data| {
      assert data[off..off + 3] == [data[off], data[off + 1], data[off + 2]];
      assert data[off + 1..off + 3] == [data[off + 1], data[off + 2]];
    }
  }

  lemma OptAcceptsIff(data: seq<byte>, off: nat, opt: OptRecord, end: nat)
    requires OptStartsAt(data, off)
    ensures OptAt(data, off) == Ok(At(opt, end)) <==> OptEncoded(opt, data, off, end)
  {
    if off + 11 <= |data| {
      ShortIff(data, off + 3, opt.udp);
      ShortIff(data, off + 7, opt.flags);
      DataIff(data, off + 9, end);
    }
    hide ReadU16, ShortAt, DataAt;
  }

  // ---------- sections ----------

  ghost predicate QuestionsEncoded(qs: seq<Question>, data: seq<byte>, off: nat, end: nat)
    decreases |qs|
  {
    if qs == [] then end == off
    else exists mid: nat :: mid <= |data| && QuestionEncoded(qs[0], data, off, mid) && QuestionsEncoded(qs[1..], data, mid, end)
  }

  lemma {:induction false} QuestionsAcceptIff(data: seq<byte>, off: nat, qs: seq<Question>, end: nat)
    requires off <= |data|
    ensures Questions(data, off, |qs|) == Ok(At(qs, end)) <==> QuestionsEncoded(qs, data, off, end)
    decreases |qs|
  {
    hide QuestionAt, QuestionEncoded, Questions, QuestionsEncoded, QuestionAtEnds, QuestionAtEncodedEnds;
    if qs == [] {
      NoQuestions(data, off, end);
    } else {
      QuestionsUnfold(data, off, qs, end);
      forall mid: nat ensures QuestionAtEnds(data, off, qs, mid, end) <==> QuestionAtEncodedEnds(data, off, qs, mid, end) {
        QuestionAcceptsIff(data, off, qs[0], mid);
        if mid <= |data| {
          QuestionsAcceptIff(data, mid, qs[1..], end);
        }
        QuestionAtEither(data, off, qs, mid, end);
      }
    }
  }

  lemma NoQuestions(data: seq<byte>, off: nat, end: nat)
    requires off <= |data|
    ensures Questions(data, off, 0) == Ok(At([], end)) <==> QuestionsEncoded([], data, off, end)
  {
  }

  lemma QuestionAtEither(data: seq<byte>, off: nat, qs: seq<Question>, mid: nat, end: nat)
    requires off <= |data| && qs != []
    requires QuestionAt(data, off) == Ok(At(qs[0], mid)) <==> QuestionEncoded(qs[0], data, off, mid)
    requires mid <= |data| ==>
      (Questions(data, mid, |qs| - 1) == Ok(At(qs[1..], end)) <==> QuestionsEncoded(qs[1..], data, mid, end))
    ensures QuestionAtEnds(data, off, qs, mid, end) <==> QuestionAtEncodedEnds(data, off, qs, mid, end)
  {
    hide QuestionAt, QuestionEncoded, Questions, QuestionsEncoded;
  }

  ghost predicate QuestionAtEnds(data: seq<byte>, off: nat, qs: seq<Question>, mid: nat, end: nat)
    requires off <= |data| && qs != []
  {
    mid <= |data| && QuestionAt(data, off) == Ok(At(qs[0], mid)) && Questions(data, mid, |qs| - 1) == Ok(At(qs[1..], end))
  }

  ghost predicate QuestionAtEncodedEnds(data: seq<byte>, off: nat, qs: seq<Question>, mid: nat, end: nat)
    requires qs != []
  {
    mid <= |data| && QuestionEncoded(qs[0], data, off, mid) && QuestionsEncoded(qs[1..], data, mid, end)
  }

  lemma QuestionsUnfold(data: seq<byte>, off: nat, qs: seq<Question>, end: nat)
    requires off <= |data| && qs != []
    ensures Questions(data, off, |qs|) == Ok(At(qs, end)) <==> exists mid: nat :: QuestionAtEnds(data, off, qs, mid, end)
    ensures QuestionsEncoded(qs, data, off, end) <==> exists mid: nat :: QuestionAtEncodedEnds(data, off, qs, mid, end)
  {
    hide QuestionAt, QuestionEncoded;
    assert qs == [qs[0]] + qs[1..];
    if Questions(data, off, |qs|) == Ok(At(qs, end)) {
      var first := QuestionAt(data, off).value;
      var rest := Questions(data, first.end, |qs| - 1).value;
      assert ([first.value] + rest.value)[1..] == rest.value;
      assert QuestionAtEnds(data, off, qs, first.end, end);
    }
    if QuestionsEncoded(qs, data, off, end) {
      var mid: nat :| mid <= |data| && QuestionEncoded(qs[0], data, off, mid) && QuestionsEncoded(qs[1..], data, mid, end);
      assert QuestionAtEncodedEnds(data, off, qs, mid, end);
    }
  }

  ghost predicate RecordsEncoded(recs: seq<ResourceRecord>, data: seq<byte>, off: nat, end: nat)
    decreases |recs|
  {
    if recs == [] then end == off
    else exists mid: nat :: mid <= |data| && RecordEncoded(recs[0], data, off, mid) && RecordsEncoded(recs[1..], data, mid, end)
  }

  lemma {:induction false} RecordsAcceptIff(data: seq<byte>, off: nat, recs: seq<ResourceRecord>, end: nat)
    requires off <= |data|
    ensures Records(data, off, |recs|) == Ok(At(recs, end)) <==> RecordsEncoded(recs, data, off, end)
    decreases |recs|
  {
    hide RecordAt, RecordEncoded, Records, RecordsEncoded, RecordAtEnds, RecordAtEncodedEnds;
    if recs == [] {
      NoRecords(data, off, end);
    } else {
      RecordsUnfold(data, off, recs, end);
      forall mid: nat ensures RecordAtEnds(data, off, recs, mid, end) <==> RecordAtEncodedEnds(data, off, recs, mid, end) {
        RecordAcceptsIff(data, off, recs[0], mid);
        if mid <= |data| {
          RecordsAcceptIff(data, mid, recs[1..], end);
        }
        RecordAtEither(data, off, recs, mid, end);
      }
    }
  }

  lemma NoRecords(data: seq<byte>, off: nat, end: nat)
    requires off <= |data|
    ensures Records(data, off, 0) == Ok(At([], end)) <==> RecordsEncoded([], data, off, end)
  {
  }

  lemma RecordAtEither(data: seq<byte>, off: nat, recs: seq<ResourceRecord>, mid: nat, end: nat)
    requires off <= |data| && recs != []
    requires RecordAt(data, off) == Ok(At(recs[0], mid)) <==> RecordEncoded(recs[0], data, off, mid)
    requires mid <= |data| ==>
      (Records(data, mid, |recs| - 1) == Ok(At(recs[1..], end)) <==> RecordsEncoded(recs[1..], data, mid, end))
    ensures RecordAtEnds(data, off, recs, mid, end) <==> RecordAtEncodedEnds(data, off, recs, mid, end)
  {
    hide RecordAt, RecordEncoded, Records, RecordsEncoded;
  }

  ghost predicate RecordAtEnds(data: seq<byte>, off: nat, recs: seq<ResourceRecord>, mid: nat, end: nat)
    requires off <= |data| && recs != []
  {
    mid <= |data| && RecordAt(data, off) == Ok(At(recs[0], mid)) && Records(data, mid, |recs| - 1) == Ok(At(recs[1..], end))
  }

  ghost predicate RecordAtEncodedEnds(data: seq<byte>, off: nat, recs: seq<ResourceRecord>, mid: nat, end: nat)
    requires recs != []
  {
    mid <= |data| && RecordEncoded(recs[0], data, off, mid) && RecordsEncoded(recs[1..], data, mid, end)
  }

  lemma RecordsUnfold(data: seq<byte>, off: nat, recs: seq<ResourceRecord>, end: nat)
    requires off <= |data| && recs != []
    ensures Records(data, off, |recs|) == Ok(At(recs, end)) <==> exists mid: nat :: RecordAtEnds(data, off, recs, mid, end)
    ensures RecordsEncoded(recs, data, off, end) <==> exists mid: nat :: RecordAtEncodedEnds(data, off, recs, mid, end)
  {
    hide RecordAt, RecordEncoded;
    assert recs == [recs[0]] + recs[1..];
    if Records(data, off, |recs|) == Ok(At(recs, end)) {
      var first := RecordAt(data, off).value;
      var rest := Records(data, first.end, |recs| - 1).value;
      assert ([first.value] + rest.value)[1..] == rest.value;
      assert RecordAtEnds(data, off, recs, first.end, end);
    }
    if RecordsEncoded(recs, data, off, end) {
      var mid: nat :| mid <= |data| && RecordEncoded(recs[0], data, off, mid) && RecordsEncoded(recs[1..], data, mid, end);
      assert RecordAtEncodedEnds(data, off, recs, mid, end);
    }
  }

  // The additional section as it stands: records, and OPT records among them.
  datatype Item = Rec(rec: ResourceRecord) | Opt(opt: OptRecord)

  ghost predicate ItemEncoded(item: Item, data: seq<byte>, off: nat, end: nat) {
    match item
    case Rec(rec) => !OptStartsAt(data, off) && RecordEncoded(rec, data, off, end)
    case Opt(opt) => OptEncoded(opt, data, off, end)
  }

  ghost predicate ItemsEncoded(items: seq<Item>, data: seq<byte>, off: nat, end: nat)
    decreases |items|
  {
    if items == [] then end == off
    else exists mid: nat :: mid <= |data| && ItemEncoded(items[0], data, off, mid) && ItemsEncoded(items[1..], data, mid, end)
  }

  function RecordsOf(items: seq<Item>): seq<ResourceRecord> {
    if items == [] then [] else (if items[0].Rec? then [items[0].rec] else []) + RecordsOf(items[1..])
  }

  function OptsOf(items: seq<Item>): seq<OptRecord> {
    if items == [] then [] else (if items[0].Opt? then [items[0].opt] else []) + OptsOf(items[1..])
  }

  function OptSeq(opt: Option<OptRecord>): seq<OptRecord> {
    if opt.Some? then [opt.value] else []
  }

  // A section of n items, with these records and, counting `seen`, this OPT record at most.
  ghost predicate SectionIs(items: seq<Item>, n: nat, seen: Option<OptRecord>, x: Extra, data: seq<byte>, off: nat, end: nat) {
    && |items| == n && ItemsEncoded(items, data, off, end)
    && RecordsOf(items) == x.records && OptSeq(seen) + OptsOf(items) == OptSeq(x.opt)
  }

  lemma {:induction false} AdditionalIsSection(data: seq<byte>, off: nat, n: nat, seen: Option<OptRecord>) returns (items: seq<Item>)
    requires off <= |data| && Additional(data, off, n, seen).Ok?
    ensures var r := Additional(data, off, n, seen).value; SectionIs(items, n, seen, r.value, data, off, r.end)
    decreases n
  {
    hide Additional, RecordAt, RecordEncoded, OptAt, OptEncoded, OptStartsAt, SectionIs;
    if n == 0 {
      items := [];
      EmptySection(data, off, seen);
    } else {
      AdditionalUnfolds(data, off, n, seen);
      var r := Additional(data, off, n, seen).value;
      if OptStartsAt(data, off) {
        var o := OptAt(data, off).value;
        OptAcceptsIff(data, off, o.value, o.end);
        var rest := AdditionalIsSection(data, o.end, n - 1, Some(o.value));
        items := [Opt(o.value)] + rest;
        OptInFront(items, rest, n, seen, o, r.value, data, off, r.end);
      } else {
        var rec := RecordAt(data, off).value;
        RecordAcceptsIff(data, off, rec.value, rec.end);
        var rest := AdditionalIsSection(data, rec.end, n - 1, seen);
        items := [Rec(rec.value)] + rest;
        RecordInFront(items, rest, n, seen, rec, Additional(data, rec.end, n - 1, seen).value.value, data, off, r.end);
      }
    }
  }

  lemma EmptySection(data: seq<byte>, off: nat, seen: Option<OptRecord>)
    requires off <= |data|
    ensures Additional(data, off, 0, seen) == Ok(At(Extra([], seen), off))
    ensures SectionIs([], 0, seen, Extra([], seen), data, off, off)
  {
    assert OptSeq(seen) + [] == OptSeq(seen);
  }

  lemma OptInFront(items: seq<Item>, rest: seq<Item>, n: nat, seen: Option<OptRecord>, o: At<OptRecord>, x: Extra,
                   data: seq<byte>, off: nat, end: nat)
    requires n > 0 && seen.None? && items == [Opt(o.value)] + rest && o.end <= |data|
    requires OptEncoded(o.value, data, off, o.end) && SectionIs(rest, n - 1, Some(o.value), x, data, o.end, end)
    ensures SectionIs(items, n, seen, x, data, off, end)
  {
    assert items[1..] == rest;
    hide OptEncoded, RecordEncoded, OptStartsAt;
    assert ItemEncoded(items[0], data, off, o.end);
    assert [] + ([o.value] + OptsOf(rest)) == [o.value] + OptsOf(rest);
    assert [] + RecordsOf(rest) == RecordsOf(rest);
  }

  lemma RecordInFront(items: seq<Item>, rest: seq<Item>, n: nat, seen: Option<OptRecord>, rec: At<ResourceRecord>, x: Extra,
                      data: seq<byte>, off: nat, end: nat)
    requires n > 0 && items == [Rec(rec.value)] + rest && rec.end <= |data|
    requires !OptStartsAt(data, off) && RecordEncoded(rec.value, data, off, rec.end)
    requires SectionIs(rest, n - 1, seen, x, data, rec.end, end)
    ensures SectionIs(items, n, seen, x.(records := [rec.value] + x.records), data, off, end)
  {
    assert items[1..] == rest;
    hide OptEncoded, RecordEncoded, OptStartsAt;
    assert ItemEncoded(items[0], data, off, rec.end);
    assert [] + OptsOf(rest) == OptsOf(rest);
  }

  lemma {:induction false} SectionIsAdditional(items: seq<Item>, n: nat, seen: Option<OptRecord>, x: Extra,
                                               data: seq<byte>, off: nat, end: nat)
    requires off <= |data| && SectionIs(items, n, seen, x, data, off, end)
    ensures Additional(data, off, n, seen) == Ok(At(x, end))
    decreases n
  {
    if n == 0 {
      assert OptSeq(seen) + [] == OptSeq(seen);
      assert OptSeq(seen) == OptSeq(x.opt);
    } else {
      hide RecordEncoded, OptEncoded, OptAt, RecordAt, OptStartsAt;
      var mid: nat :| mid <= |data| && ItemEncoded(items[0], data, off, mid) && ItemsEncoded(items[1..], data, mid, end);
      var rest := items[1..];
      match items[0] {
        case Opt(opt) =>
          OptStands(opt, data, off, mid);
          assert OptSeq(seen) + ([opt] + OptsOf(rest)) == OptSeq(x.opt);
          assert seen.None?;
          assert OptSeq(Some(opt)) + OptsOf(rest) == OptSeq(x.opt);
          SectionIsAdditional(rest, n - 1, Some(opt), x, data, mid, end);
        case Rec(rec) =>
          RecordAcceptsIff(data, off, rec, mid);
          assert [] + OptsOf(rest) == OptsOf(rest);
          assert [rec] + RecordsOf(rest) == x.records;
          SectionIsAdditional(rest, n - 1, seen, x.(records := RecordsOf(rest)), data, mid, end);
      }
    }
  }

  lemma OptStands(opt: OptRecord, data: seq<byte>, off: nat, end: nat)
    requires OptEncoded(opt, data, off, end)
    ensures OptStartsAt(data, off) && OptAt(data, off) == Ok(At(opt, end))
  {
    OptAcceptsIff(data, off, opt, end);
  }

  ghost predicate AdditionalEncoded(n: nat, x: Extra, data: seq<byte>, off: nat, end: nat) {
    exists items: seq<Item> :: SectionIs(items, n, None, x, data, off, end)
  }

  lemma AdditionalAcceptsIff(data: seq<byte>, off: nat, n: nat, x: Extra, end: nat)
    requires off <= |data|
    ensures Additional(data, off, n, None) == Ok(At(x, end)) <==> AdditionalEncoded(n, x, data, off, end)
  {
    hide Additional, SectionIs;
    if Additional(data, off, n, None) == Ok(At(x, end)) {
      var items := AdditionalIsSection(data, off, n, None);
    }
    forall items: seq<Item> | SectionIs(items, n, None, x, data, off, end) ensures Additional(data, off, n, None) == Ok(At(x, end)) {
      SectionIsAdditional(items, n, None, x, data, off, end);
    }
  }

  // ---------- packets ----------

  // The sections of a packet, one behind the other from offset 12; `ends` are the offsets between them.
  ghost predicate SectionsEncoded(p: Packet, data: seq<byte>, a: nat, b: nat, c: nat, end: nat) {
    && a <= |data| && b <= |data| && c <= |data|
    && |p.questions| == p.header.questions && QuestionsEncoded(p.questions, data, 12, a)
    && |p.answers| == p.header.answers && RecordsEncoded(p.answers, data, a, b)
    && |p.nameservers| == p.header.nameservers && RecordsEncoded(p.nameservers, data, b, c)
    && AdditionalEncoded(p.header.additional, Extra(p.additional, p.opt), data, c, end)
  }

  ghost predicate PacketEncoded(p: Packet, data: seq<byte>) {
    H.Encoded(p.header, data) && exists a: nat, b: nat, c: nat, end: nat :: SectionsEncoded(p, data, a, b, c, end)
  }

  // Main result for the parser: a message is accepted as a packet exactly when it is the packet's wire
  // form, whatever bytes follow it.
  lemma PacketAcceptsIff(data: seq<byte>, p: Packet)
    ensures PacketSpec(data) == Ok(p) <==> PacketEncoded(p, data)
  {
    H.HeaderAcceptsIff(data, p.header);
    hide H.Parse, H.Encoded, QuestionsEncoded, RecordsEncoded, AdditionalEncoded, Questions, Records, Additional;
    if PacketSpec(data) == Ok(p) {
      ParsedIsEncoded(data, p);
    }
    if PacketEncoded(p, data) {
      var a: nat, b: nat, c: nat, end: nat :| SectionsEncoded(p, data, a, b, c, end);
      EncodedIsParsed(data, p, a, b, c, end);
    }
  }

  lemma HeaderIff(data: seq<byte>, h: H.Header)
    ensures H.Parse(data) == Ok(h) <==> H.Encoded(h, data)
    ensures H.Parse(data) == Ok(h) ==> |data| >= 12
  {
    H.HeaderAcceptsIff(data, h);
  }

  lemma ParsedIsEncoded(data: seq<byte>, p: Packet)
    requires PacketSpec(data) == Ok(p)
    ensures PacketEncoded(p, data)
  {
    hide H.Parse, H.Encoded, QuestionsEncoded, RecordsEncoded, AdditionalEncoded, Questions, Records, Additional;
    HeaderIff(data, p.header);
    var qs := Questions(data, 12, p.header.questions).value;
    QuestionsAcceptIff(data, 12, p.questions, qs.end);
    var ans := Records(data, qs.end, p.header.answers).value;
    RecordsAcceptIff(data, qs.end, p.answers, ans.end);
    var nss := Records(data, ans.end, p.header.nameservers).value;
    RecordsAcceptIff(data, ans.end, p.nameservers, nss.end);
    var add := Additional(data, nss.end, p.header.additional, None).value;
    AdditionalAcceptsIff(data, nss.end, p.header.additional, add.value, add.end);
    assert SectionsEncoded(p, data, qs.end, ans.end, nss.end, add.end);
  }

  lemma EncodedIsParsed(data: seq<byte>, p: Packet, a: nat, b: nat, c: nat, end: nat)
    requires H.Encoded(p.header, data) && SectionsEncoded(p, data, a, b, c, end)
    ensures PacketSpec(data) == Ok(p)
  {
    hide H.Parse, H.Encoded, QuestionsEncoded, RecordsEncoded, AdditionalEncoded, Questions, Records, Additional;
    HeaderIff(data, p.header);
    QuestionsAcceptIff(data, 12, p.questions, a);
    RecordsAcceptIff(data, a, p.answers, b);
    RecordsAcceptIff(data, b, p.nameservers, c);
    AdditionalAcceptsIff(data, c, p.header.additional, Extra(p.additional, p.opt), end);
  }
}
