// Why a message is refused: the parser's error is that of the first part of the message, in the order in
// which the parts stand in it, that is not in wire form.
module DnsErrors {
  import opened Wrappers
  import opened DnsTypes
  import opened DnsName
  import opened DnsNameErrors
  import opened DnsRData
  import opened DnsParser
  import opened DnsWire
  import opened DnsHeaderBytes
  import H = DnsHeader

  // ---------- record data ----------

  ghost predicate NameFails(data: seq<byte>, original: seq<byte>, e: Error) {
    exists hops :: RefusedAt(data, original, e, hops)
  }

  // What follows the whole character strings at the front of TXT data.
  function AfterStrings(s: seq<byte>): seq<byte>
    decreases |s|
  {
    if s != [] && |s| > s[0] as int && IsUtf8(s[1..s[0] as int + 1]) then AfterStrings(s[s[0] as int + 1..]) else s
  }

  // A character string does not go on here, and why.
  predicate StringFails(rest: seq<byte>, e: Error) {
    rest != [] && if |rest| <= rest[0] as int then e == WrongRdataLength else e == TxtDataIsNotUTF8
  }

  ghost predicate TxtFails(rdata: seq<byte>, e: Error) {
    if rdata == [] then e == WrongRdataLength else StringFails(AfterStrings(rdata), e)
  }

  lemma {:induction false} StringsErrIff(s: seq<byte>, e: Error)
    ensures TxtFrom(s) == Err(e) <==> StringFails(AfterStrings(s), e)
    decreases |s|
  {
    hide IsUtf8;
    if s != [] && |s| > s[0] as int && IsUtf8(s[1..s[0] as int + 1]) {
      StringsErrIff(s[s[0] as int + 1..], e);
    }
  }

  lemma TxtErrIff(rdata: seq<byte>, e: Error)
    ensures TxtSpec(rdata) == Err(e) <==> TxtFails(rdata, e)
  {
    StringsErrIff(rdata, e);
  }

  ghost predicate SoaFails(rdata: seq<byte>, original: seq<byte>, e: Error) {
    || NameFails(rdata, original, e)
    || (exists ns: Name :: NameHeads(ns, original, rdata) && MailboxFails(rdata, |ns.labels|, original, e))
  }

  ghost predicate MailboxFails(rdata: seq<byte>, at: nat, original: seq<byte>, e: Error) {
    && at <= |rdata|
    && (NameFails(rdata[at..], original, e)
        || (e == WrongRdataLength
            && exists mailbox: Name :: NameHeads(mailbox, original, rdata[at..]) && |rdata| < at + |mailbox.labels| + 20))
  }

  ghost predicate RDataFails(typ: Type, rdata: seq<byte>, original: seq<byte>, e: Error) {
    match typ
    case TypeA => |rdata| != 4 && e == WrongRdataLength
    case TypeAAAA => |rdata| != 16 && e == WrongRdataLength
    case TypeCNAME => NameFails(rdata, original, e)
    case TypeNS => NameFails(rdata, original, e)
    case TypePTR => NameFails(rdata, original, e)
    case TypeMX => if |rdata| < 3 then e == WrongRdataLength else NameFails(rdata[2..], original, e)
    case TypeSRV => if |rdata| < 7 then e == WrongRdataLength else NameFails(rdata[6..], original, e)
    case TypeSOA => SoaFails(rdata, original, e)
    case TypeTXT => TxtFails(rdata, e)
    case _ => false
  }

  lemma SoaErrIff(rdata: seq<byte>, original: seq<byte>, e: Error)
    ensures SoaSpec(rdata, original) == Err(e) <==> SoaFails(rdata, original, e)
  {
    hide Walk, ScanSpec, RefusedAt, NameHeads, ReadU32;
    ScanErrIff(rdata, original, e);
    forall ns: Name ensures ScanSpec(rdata, original) == Ok(ns) <==> NameHeads(ns, original, rdata) {
      ScanIff(rdata, original, ns);
    }
    if ScanSpec(rdata, original).Ok? {
      ScanLength(rdata, original);
      MailboxErrIff(rdata, |ScanSpec(rdata, original).value.labels|, original, e);
    }
  }

  lemma MailboxErrIff(rdata: seq<byte>, at: nat, original: seq<byte>, e: Error)
    requires at <= |rdata|
    ensures MailboxFails(rdata, at, original, e) <==>
            var r := ScanSpec(rdata[at..], original);
            if r.Err? then r.error == e else |rdata| < at + |r.value.labels| + 20 && e == WrongRdataLength
  {
    hide Walk, ScanSpec, RefusedAt, NameHeads;
    ScanErrIff(rdata[at..], original, e);
    forall name: Name ensures ScanSpec(rdata[at..], original) == Ok(name) <==> NameHeads(name, original, rdata[at..]) {
      ScanIff(rdata[at..], original, name);
    }
  }

  // Record data is refused exactly for its length, for the first name in it that fails, or for its text.
  lemma RDataErrIff(typ: Type, rdata: seq<byte>, original: seq<byte>, e: Error)
    ensures RDataSpec(typ, rdata, original) == Err(e) <==> RDataFails(typ, rdata, original, e)
  {
    hide Walk, ScanSpec, RefusedAt, SoaSpec, SoaFails, TxtSpec, TxtFails, ReadU16, ReadU32;
    ScanErrIff(rdata, original, e);
    SoaErrIff(rdata, original, e);
    TxtErrIff(rdata, e);
    if |rdata| >= 3 {
      ScanErrIff(rdata[2..], original, e);
    }
    if |rdata| >= 7 {
      ScanErrIff(rdata[6..], original, e);
    }
  }

  // ---------- one question, one record ----------

  // The codes behind a name fail: there is no room for them, or one of them is nothing's.
  ghost predicate QuestionCodesFail(data: seq<byte>, at: nat, e: Error) {
    if at + 4 > |data| then e == UnexpectedEOF
    else
      var typ, cls := ReadU16(data, at), ReadU16(data, at + 2) % 0x8000;
      if forall t: QueryType :: QueryTypeCode(t) != typ then e == InvalidQueryType(typ)
      else (forall c: QueryClass :: QueryClassCode(c) != cls) && e == InvalidQueryClass(cls)
  }

  ghost predicate QuestionFails(data: seq<byte>, off: nat, e: Error) {
    && off <= |data|
    && (NameFails(data[off..], data, e)
        || exists name: Name :: NameHeads(name, data, data[off..]) && QuestionCodesFail(data, off + |name.labels|, e))
  }

  lemma QuestionErrIff(data: seq<byte>, off: nat, e: Error)
    requires off <= |data|
    ensures QuestionAt(data, off) == Err(e) <==> QuestionFails(data, off, e)
  {
    hide Walk, ScanSpec, RefusedAt, NameHeads, ReadU16, ParseQueryType, ParseQueryClass, QueryTypeCode, QueryClassCode;
    ScanErrIff(data[off..], data, e);
    forall name: Name ensures ScanSpec(data[off..], data) == Ok(name) <==> NameHeads(name, data, data[off..]) {
      ScanIff(data[off..], data, name);
    }
    if ScanSpec(data[off..], data).Ok? {
      ScanLength(data[off..], data);
      CodesErrIff(data, off + |ScanSpec(data[off..], data).value.labels|, e);
    }
  }

  lemma CodesErrIff(data: seq<byte>, at: nat, e: Error)
    ensures QuestionCodesFail(data, at, e) <==>
            if at + 4 > |data| then e == UnexpectedEOF
            else
              var t, c := ParseQueryType(ReadU16(data, at)), ParseQueryClass(ReadU16(data, at + 2) % 0x8000);
              if t.Err? then t.error == e else c.Err? && c.error == e
  {
    hide ReadU16;
    if at + 4 <= |data| {
      UnknownCodes(ReadU16(data, at));
      UnknownCodes(ReadU16(data, at + 2) % 0x8000);
      hide QueryTypeCode, QueryClassCode;
      ErrorNamesCode(ReadU16(data, at));
      ErrorNamesCode(ReadU16(data, at + 2) % 0x8000);
    }
  }

  lemma ErrorNamesCode(code: u16)
    ensures ParseQueryType(code).Err? ==> ParseQueryType(code) == Err(InvalidQueryType(code))
    ensures ParseQueryClass(code).Err? ==> ParseQueryClass(code) == Err(InvalidQueryClass(code))
    ensures ParseType(code).Err? ==> ParseType(code) == Err(InvalidType(code))
    ensures ParseClass(code).Err? ==> ParseClass(code) == Err(InvalidClass(code))
  {
  }

  // The fixed part of a record fails: no room for it, a type or class that is nothing's, or data that
  // would go past the message.
  ghost predicate FixedPartFails(data: seq<byte>, at: nat, e: Error) {
    if at + 10 > |data| then e == UnexpectedEOF
    else
      var typ, cls := ReadU16(data, at), ReadU16(data, at + 2) % 0x8000;
      if forall t: Type :: TypeCode(t) != typ then e == InvalidType(typ)
      else if forall c: Class :: ClassCode(c) != cls then e == InvalidClass(cls)
      else at + 10 + ReadU16(data, at + 8) > |data| && e == UnexpectedEOF
  }

  // Or the data itself does.
  ghost predicate DataFails(data: seq<byte>, at: nat, typ: Type, cls: Class, e: Error) {
    && at + 10 <= |data| && ReadU16(data, at) == TypeCode(typ) && ReadU16(data, at + 2) % 0x8000 == ClassCode(cls)
    && at + 10 + ReadU16(data, at + 8) <= |data|
    && RDataFails(typ, data[at + 10..at + 10 + ReadU16(data, at + 8)], data, e)
  }

  ghost predicate RecordPartsFail(data: seq<byte>, at: nat, e: Error) {
    FixedPartFails(data, at, e) || exists typ: Type, cls: Class :: DataFails(data, at, typ, cls, e)
  }

  ghost predicate RecordFails(data: seq<byte>, off: nat, e: Error) {
    && off <= |data|
    && (NameFails(data[off..], data, e)
        || exists name: Name :: NameHeads(name, data, data[off..]) && RecordPartsFail(data, off + |name.labels|, e))
  }

  lemma RecordErrIff(data: seq<byte>, off: nat, e: Error)
    requires off <= |data|
    ensures RecordAt(data, off) == Err(e) <==> RecordFails(data, off, e)
  {
    hide Walk, ScanSpec, RefusedAt, NameHeads, ReadU16, ReadU32, ParseType, ParseClass, RDataSpec, RecordPartsFail;
    ScanErrIff(data[off..], data, e);
    forall name: Name ensures ScanSpec(data[off..], data) == Ok(name) <==> NameHeads(name, data, data[off..]) {
      ScanIff(data[off..], data, name);
    }
    if ScanSpec(data[off..], data).Ok? {
      ScanLength(data[off..], data);
      PartsErrIff(data, off + |ScanSpec(data[off..], data).value.labels|, e);
    }
  }

  // The parts behind the name, as the parser meets them.
  ghost predicate PartsRefused(data: seq<byte>, at: nat, e: Error) {
    if at + 10 > |data| then e == UnexpectedEOF
    else
      var t, c := ParseType(ReadU16(data, at)), ParseClass(ReadU16(data, at + 2) % 0x8000);
      var end := at + 10 + ReadU16(data, at + 8);
      if t.Err? then t.error == e else if c.Err? then c.error == e
      else if end > |data| then e == UnexpectedEOF
      else RDataSpec(t.value, data[at + 10..end], data) == Err(e)
  }

  lemma PartsErrIff(data: seq<byte>, at: nat, e: Error)
    ensures RecordPartsFail(data, at, e) <==> PartsRefused(data, at, e)
  {
    hide ReadU16, RDataSpec, RDataFails, ParseType, ParseClass, TypeCode, ClassCode;
    if at + 10 <= |data| {
      var typ, cls := ReadU16(data, at), ReadU16(data, at + 2) % 0x8000;
      UnknownCodes(typ);
      UnknownCodes(cls);
      ErrorNamesCode(typ);
      ErrorNamesCode(cls);
      forall t: Type ensures ParseType(typ) == Ok(t) <==> typ == TypeCode(t) {
        TypeIff(typ, t);
      }
      forall c: Class ensures ParseClass(cls) == Ok(c) <==> cls == ClassCode(c) {
        ClassIff(cls, c);
      }
      var end := at + 10 + ReadU16(data, at + 8);
      if ParseType(typ).Ok? && ParseClass(cls).Ok? && end <= |data| {
        RDataErrIff(ParseType(typ).value, data[at + 10..end], data, e);
        assert DataFails(data, at, ParseType(typ).value, ParseClass(cls).value, e)
               <==> RDataFails(ParseType(typ).value, data[at + 10..end], data, e);
      }
    }
  }

  ghost predicate OptFails(data: seq<byte>, off: nat, e: Error) {
    e == UnexpectedEOF && (off + 11 > |data| || off + 11 + ReadU16(data, off + 9) > |data|)
  }

  lemma OptErrIff(data: seq<byte>, off: nat, e: Error)
    requires OptStartsAt(data, off)
    ensures OptAt(data, off) == Err(e) <==> OptFails(data, off, e)
  {
  }

  // ---------- sections ----------

  // Some questions stand there, fewer than wanted, and behind them is one that fails.
  ghost predicate QuestionsFailAt(data: seq<byte>, off: nat, n: nat, qs: seq<Question>, mid: nat, e: Error) {
    |qs| < n && QuestionsEncoded(qs, data, off, mid) && QuestionFails(data, mid, e)
  }

  ghost predicate QuestionsFail(data: seq<byte>, off: nat, n: nat, e: Error) {
    exists qs: seq<Question>, mid: nat :: QuestionsFailAt(data, off, n, qs, mid, e)
  }

  lemma {:induction false} QuestionsRefused(data: seq<byte>, off: nat, n: nat, e: Error) returns (qs: seq<Question>, mid: nat)
    requires off <= |data| && Questions(data, off, n) == Err(e)
    ensures QuestionsFailAt(data, off, n, qs, mid, e)
    decreases n
  {
    hide QuestionAt, QuestionFails, QuestionEncoded;
    if QuestionAt(data, off).Err? {
      QuestionErrIff(data, off, e);
      qs, mid := [], off;
    } else {
      var q := QuestionAt(data, off).value;
      var rest, m := QuestionsRefused(data, q.end, n - 1, e);
      QuestionAcceptsIff(data, off, q.value, q.end);
      qs, mid := [q.value] + rest, m;
      assert qs[1..] == rest;
    }
  }

  lemma {:induction false} FailureRefusesQuestions(data: seq<byte>, off: nat, n: nat, qs: seq<Question>, mid: nat, e: Error)
    requires off <= |data| && QuestionsFailAt(data, off, n, qs, mid, e)
    ensures Questions(data, off, n) == Err(e)
    decreases n
  {
    hide QuestionAt, QuestionFails, QuestionEncoded;
    if qs == [] {
      QuestionErrIff(data, off, e);
    } else {
      var m: nat :| m <= |data| && QuestionEncoded(qs[0], data, off, m) && QuestionsEncoded(qs[1..], data, m, mid);
      QuestionAcceptsIff(data, off, qs[0], m);
      FailureRefusesQuestions(data, m, n - 1, qs[1..], mid, e);
    }
  }

  lemma QuestionsErrIff(data: seq<byte>, off: nat, n: nat, e: Error)
    requires off <= |data|
    ensures Questions(data, off, n) == Err(e) <==> QuestionsFail(data, off, n, e)
  {
    hide Questions, QuestionsFailAt;
    if Questions(data, off, n) == Err(e) {
      var qs, mid := QuestionsRefused(data, off, n, e);
    }
    forall qs: seq<Question>, mid: nat | QuestionsFailAt(data, off, n, qs, mid, e) ensures Questions(data, off, n) == Err(e) {
      FailureRefusesQuestions(data, off, n, qs, mid, e);
    }
  }

  ghost predicate RecordsFailAt(data: seq<byte>, off: nat, n: nat, recs: seq<ResourceRecord>, mid: nat, e: Error) {
    |recs| < n && RecordsEncoded(recs, data, off, mid) && RecordFails(data, mid, e)
  }

  ghost predicate RecordsFail(data: seq<byte>, off: nat, n: nat, e: Error) {
    exists recs: seq<ResourceRecord>, mid: nat :: RecordsFailAt(data, off, n, recs, mid, e)
  }

  lemma {:induction false} RecordsRefused(data: seq<byte>, off: nat, n: nat, e: Error) returns (recs: seq<ResourceRecord>, mid: nat)
    requires off <= |data| && Records(data, off, n) == Err(e)
    ensures RecordsFailAt(data, off, n, recs, mid, e)
    decreases n
  {
    hide RecordAt, RecordFails, RecordEncoded;
    if RecordAt(data, off).Err? {
      RecordErrIff(data, off, e);
      recs, mid := [], off;
    } else {
      var rec := RecordAt(data, off).value;
      var rest, m := RecordsRefused(data, rec.end, n - 1, e);
      RecordAcceptsIff(data, off, rec.value, rec.end);
      recs, mid := [rec.value] + rest, m;
      assert recs[1..] == rest;
    }
  }

  lemma {:induction false} FailureRefusesRecords(data: seq<byte>, off: nat, n: nat, recs: seq<ResourceRecord>, mid: nat, e: Error)
    requires off <= |data| && RecordsFailAt(data, off, n, recs, mid, e)
    ensures Records(data, off, n) == Err(e)
    decreases n
  {
    hide RecordAt, RecordFails, RecordEncoded;
    if recs == [] {
      RecordErrIff(data, off, e);
    } else {
      var m: nat :| m <= |data| && RecordEncoded(recs[0], data, off, m) && RecordsEncoded(recs[1..], data, m, mid);
      RecordAcceptsIff(data, off, recs[0], m);
      FailureRefusesRecords(data, m, n - 1, recs[1..], mid, e);
    }
  }

  lemma RecordsErrIff(data: seq<byte>, off: nat, n: nat, e: Error)
    requires off <= |data|
    ensures Records(data, off, n) == Err(e) <==> RecordsFail(data, off, n, e)
  {
    hide Records, RecordsFailAt;
    if Records(data, off, n) == Err(e) {
      var recs, mid := RecordsRefused(data, off, n, e);
    }
    forall recs: seq<ResourceRecord>, mid: nat | RecordsFailAt(data, off, n, recs, mid, e) ensures Records(data, off, n) == Err(e) {
      FailureRefusesRecords(data, off, n, recs, mid, e);
    }
  }

  // In the additional section a second OPT record fails as such.
  ghost predicate ItemFails(data: seq<byte>, off: nat, another: bool, e: Error) {
    if OptStartsAt(data, off) then (if another then e == AdditionalOPT else OptFails(data, off, e))
    else RecordFails(data, off, e)
  }

  ghost predicate ItemsFailAt(data: seq<byte>, off: nat, n: nat, seen: nat, items: seq<Item>, mid: nat, e: Error) {
    && |items| < n && mid <= |data| && ItemsEncoded(items, data, off, mid) && seen + |OptsOf(items)| <= 1
    && ItemFails(data, mid, seen + |OptsOf(items)| == 1, e)
  }

  ghost predicate AdditionalFails(data: seq<byte>, off: nat, n: nat, e: Error) {
    exists items: seq<Item>, mid: nat :: ItemsFailAt(data, off, n, 0, items, mid, e)
  }

  lemma {:induction false} ItemsRefused(data: seq<byte>, off: nat, n: nat, seen: Option<OptRecord>, e: Error)
    returns (items: seq<Item>, mid: nat)
    requires off <= |data| && Additional(data, off, n, seen) == Err(e)
    ensures ItemsFailAt(data, off, n, OptCount(seen), items, mid, e)
    decreases n
  {
    hide RecordAt, RecordFails, RecordEncoded, OptAt, OptEncoded, OptFails, OptStartsAt;
    if OptStartsAt(data, off) {
      OptErrIff(data, off, e);
      if seen.Some? || OptAt(data, off).Err? {
        items, mid := [], off;
      } else {
        var o := OptAt(data, off).value;
        OptAcceptsIff(data, off, o.value, o.end);
        var rest, m := ItemsRefused(data, o.end, n - 1, Some(o.value), e);
        items, mid := [Opt(o.value)] + rest, m;
        assert items[1..] == rest;
        assert ItemEncoded(items[0], data, off, o.end);
      }
    } else {
      RecordErrIff(data, off, e);
      if RecordAt(data, off).Err? {
        items, mid := [], off;
      } else {
        var rec := RecordAt(data, off).value;
        RecordAcceptsIff(data, off, rec.value, rec.end);
        var rest, m := ItemsRefused(data, rec.end, n - 1, seen, e);
        items, mid := [Rec(rec.value)] + rest, m;
        assert items[1..] == rest;
        assert ItemEncoded(items[0], data, off, rec.end);
      }
    }
  }

  lemma {:induction false} FailureRefusesItems(data: seq<byte>, off: nat, n: nat, seen: Option<OptRecord>, items: seq<Item>, mid: nat, e: Error)
    requires off <= |data| && ItemsFailAt(data, off, n, OptCount(seen), items, mid, e)
    ensures Additional(data, off, n, seen) == Err(e)
    decreases n
  {
    hide RecordAt, RecordFails, RecordEncoded, OptAt, OptEncoded, OptFails, OptStartsAt;
    if items == [] {
      if OptStartsAt(data, off) {
        OptErrIff(data, off, e);
      } else {
        RecordErrIff(data, off, e);
      }
    } else {
      var m: nat :| m <= |data| && ItemEncoded(items[0], data, off, m) && ItemsEncoded(items[1..], data, m, mid);
      match items[0] {
        case Opt(opt) =>
          OptStands(opt, data, off, m);
          FailureRefusesItems(data, m, n - 1, Some(opt), items[1..], mid, e);
        case Rec(rec) =>
          RecordAcceptsIff(data, off, rec, m);
          FailureRefusesItems(data, m, n - 1, seen, items[1..], mid, e);
      }
    }
  }

  lemma AdditionalErrIff(data: seq<byte>, off: nat, n: nat, e: Error)
    requires off <= |data|
    ensures Additional(data, off, n, None) == Err(e) <==> AdditionalFails(data, off, n, e)
  {
    hide Additional, ItemsFailAt;
    if Additional(data, off, n, None) == Err(e) {
      var items, mid := ItemsRefused(data, off, n, None, e);
    }
    forall items: seq<Item>, mid: nat | ItemsFailAt(data, off, n, 0, items, mid, e) ensures Additional(data, off, n, None) == Err(e) {
      FailureRefusesItems(data, off, n, None, items, mid, e);
    }
  }

  // ---------- packets ----------

  ghost predicate HeaderFails(data: seq<byte>, e: Error) {
    if |data| < 12 then e == HeaderTooShort else data[3] / 64 % 2 == 1 && e == ReservedBitsAreNonZero
  }

  // Behind the sections that stand there, the next one fails.
  ghost predicate SectionsFail(h: H.Header, data: seq<byte>, e: Error) {
    || QuestionsFail(data, 12, h.questions, e)
    || (exists qs: seq<Question>, a: nat :: |qs| == h.questions && a <= |data| && QuestionsEncoded(qs, data, 12, a) && AnswersFail(h, data, a, e))
  }

  ghost predicate AnswersFail(h: H.Header, data: seq<byte>, a: nat, e: Error) {
    || RecordsFail(data, a, h.answers, e)
    || (exists recs: seq<ResourceRecord>, b: nat ::
          |recs| == h.answers && b <= |data| && RecordsEncoded(recs, data, a, b) && NameserversFail(h, data, b, e))
  }

  ghost predicate NameserversFail(h: H.Header, data: seq<byte>, b: nat, e: Error) {
    || RecordsFail(data, b, h.nameservers, e)
    || (exists recs: seq<ResourceRecord>, c: nat ::
          |recs| == h.nameservers && c <= |data| && RecordsEncoded(recs, data, b, c) && AdditionalFails(data, c, h.additional, e))
  }

  ghost predicate PacketFails(data: seq<byte>, e: Error) {
    HeaderFails(data, e) || exists h: H.Header :: H.Encoded(h, data) && SectionsFail(h, data, e)
  }

  // The parser's later sections, each from where the one before ended.
  function FromNameservers(h: H.Header, data: seq<byte>, b: nat): Option<Error>
    requires b <= |data|
  {
    var nss := Records(data, b, h.nameservers);
    if nss.Err? then Some(nss.error)
    else
      var add := Additional(data, nss.value.end, h.additional, None);
      if add.Err? then Some(add.error) else None
  }

  function FromAnswers(h: H.Header, data: seq<byte>, a: nat): Option<Error>
    requires a <= |data|
  {
    var ans := Records(data, a, h.answers);
    if ans.Err? then Some(ans.error) else FromNameservers(h, data, ans.value.end)
  }

  lemma NameserversErrIff(h: H.Header, data: seq<byte>, b: nat, e: Error)
    requires b <= |data|
    ensures FromNameservers(h, data, b) == Some(e) <==> NameserversFail(h, data, b, e)
  {
    hide Records, RecordsEncoded, RecordsFail, Additional, AdditionalFails;
    RecordsErrIff(data, b, h.nameservers, e);
    forall recs: seq<ResourceRecord>, c: nat | |recs| == h.nameservers
      ensures Records(data, b, |recs|) == Ok(At(recs, c)) <==> RecordsEncoded(recs, data, b, c)
    {
      RecordsAcceptIff(data, b, recs, c);
    }
    if Records(data, b, h.nameservers).Ok? {
      var r := Records(data, b, h.nameservers).value;
      AdditionalErrIff(data, r.end, h.additional, e);
      assert Records(data, b, |r.value|) == Ok(At(r.value, r.end));
    }
  }

  lemma AnswersErrIff(h: H.Header, data: seq<byte>, a: nat, e: Error)
    requires a <= |data|
    ensures FromAnswers(h, data, a) == Some(e) <==> AnswersFail(h, data, a, e)
  {
    hide Records, RecordsEncoded, RecordsFail, FromNameservers, NameserversFail;
    RecordsErrIff(data, a, h.answers, e);
    forall recs: seq<ResourceRecord>, b: nat | |recs| == h.answers
      ensures Records(data, a, |recs|) == Ok(At(recs, b)) <==> RecordsEncoded(recs, data, a, b)
    {
      RecordsAcceptIff(data, a, recs, b);
    }
    if Records(data, a, h.answers).Ok? {
      var r := Records(data, a, h.answers).value;
      NameserversErrIff(h, data, r.end, e);
      assert Records(data, a, |r.value|) == Ok(At(r.value, r.end));
    }
  }

  function FromQuestions(h: H.Header, data: seq<byte>): Option<Error>
    requires |data| >= 12
  {
    var qs := Questions(data, 12, h.questions);
    if qs.Err? then Some(qs.error) else FromAnswers(h, data, qs.value.end)
  }

  lemma SectionsErrIff(h: H.Header, data: seq<byte>, e: Error)
    requires |data| >= 12
    ensures FromQuestions(h, data) == Some(e) <==> SectionsFail(h, data, e)
  {
    hide Questions, QuestionsEncoded, QuestionsFail, FromAnswers, AnswersFail;
    QuestionsErrIff(data, 12, h.questions, e);
    forall qs: seq<Question>, a: nat | |qs| == h.questions
      ensures Questions(data, 12, |qs|) == Ok(At(qs, a)) <==> QuestionsEncoded(qs, data, 12, a)
    {
      QuestionsAcceptIff(data, 12, qs, a);
    }
    if Questions(data, 12, h.questions).Ok? {
      var r := Questions(data, 12, h.questions).value;
      AnswersErrIff(h, data, r.end, e);
      assert Questions(data, 12, |r.value|) == Ok(At(r.value, r.end));
    }
  }

  lemma PacketBySections(data: seq<byte>)
    ensures H.Parse(data).Err? ==> PacketSpec(data) == Err(H.Parse(data).error)
    ensures H.Parse(data).Ok? ==>
      && |data| >= 12
      && var r := FromQuestions(H.Parse(data).value, data);
         if r.Some? then PacketSpec(data) == Err(r.value) else PacketSpec(data).Ok?
  {
    hide Questions, Records, Additional;
  }

  // Main result for refused messages: a message is refused with an error exactly when its header fails for
  // that reason, or the first question or record that is not in wire form does.
  lemma PacketErrIff(data: seq<byte>, e: Error)
    ensures PacketSpec(data) == Err(e) <==> PacketFails(data, e)
  {
    hide FromQuestions, SectionsFail, PacketSpec, H.Parse, H.Encoded;
    PacketBySections(data);
    HeaderErrIff(data, e);
    forall h: H.Header ensures H.Parse(data) == Ok(h) <==> H.Encoded(h, data) {
      H.HeaderAcceptsIff(data, h);
    }
    if H.Parse(data).Ok? {
      SectionsErrIff(H.Parse(data).value, data, e);
    }
  }

  lemma HeaderErrIff(data: seq<byte>, e: Error)
    ensures H.Parse(data) == Err(e) <==> HeaderFails(data, e)
  {
    ParsedHeader(data);
    hide H.Unpack;
  }
}
