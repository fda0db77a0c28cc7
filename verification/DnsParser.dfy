// The packet parser: a header and four sections, read with one moving offset.
module DnsParser {
  import opened Wrappers
  import opened DnsTypes
  import opened DnsName
  import opened DnsRData
  import H = DnsHeader

  datatype Question = Question(qname: Name, preferUnicast: bool, qtype: QueryType, qclass: QueryClass)

  datatype ResourceRecord = ResourceRecord(name: Name, multicastUnique: bool, cls: Class, ttl: nat, data: RRData)

  datatype OptRecord = OptRecord(udp: u16, extrcode: byte, version: byte, flags: u16, data: RRData)

  datatype Packet = Packet(
    header: H.Header, questions: seq<Question>, answers: seq<ResourceRecord>, nameservers: seq<ResourceRecord>,
    additional: seq<ResourceRecord>, opt: Option<OptRecord>)

  const OPT_RR_START: seq<byte> := [0, 0, 41]

  // Something parsed, and the offset behind it.
  datatype At<+T> = At(value: T, end: nat)

  // The top bit of a class code is a flag of multicast DNS.
  function ParseQClassCode(value: u16): Result<(bool, QueryClass)> {
    var qclass :- ParseQueryClass(value % 0x8000);
    Ok((value / 0x8000 == 1, qclass))
  }

  function ParseClassCode(value: u16): Result<(bool, Class)> {
    var cls :- ParseClass(value % 0x8000);
    Ok((value / 0x8000 == 1, cls))
  }

  // ---------- one question, one record ----------

  function QuestionAt(data: seq<byte>, off: nat): (r: Result<At<Question>>)
    requires off <= |data|
    ensures r.Ok? ==> off + 5 <= r.value.end <= |data|
  {
    var name :- ScanSpec(data[off..], data);
    var off := off + |name.labels|;
    if off + 4 > |data| then Err(UnexpectedEOF)
    else
      var qtype :- ParseQueryType(ReadU16(data, off));
      var q :- ParseQClassCode(ReadU16(data, off + 2));
      Ok(At(Question(name, q.0, qtype, q.1), off + 4))
  }

  function RecordAt(data: seq<byte>, off: nat): (r: Result<At<ResourceRecord>>)
    requires off <= |data|
    ensures r.Ok? ==> off + 11 <= r.value.end <= |data|
  {
    var name :- ScanSpec(data[off..], data);
    var off := off + |name.labels|;
    if off + 10 > |data| then Err(UnexpectedEOF)
    else
      var typ :- ParseType(ReadU16(data, off));
      var cls :- ParseClassCode(ReadU16(data, off + 2));
      var ttl := ReadU32(data, off + 4);
      var rdlen := ReadU16(data, off + 8);
      if off + 10 + rdlen > |data| then Err(UnexpectedEOF)
      else
        var d :- RDataSpec(typ, data[off + 10..off + 10 + rdlen], data);
        Ok(At(ResourceRecord(name, cls.0, cls.1, if ttl > 0x7FFF_FFFF then 0 else ttl, d), off + 10 + rdlen))
  }

  predicate OptStartsAt(data: seq<byte>, off: nat) {
    off + 3 <= |data| && data[off..off + 3] == OPT_RR_START
  }

  function OptAt(data: seq<byte>, off: nat): (r: Result<At<OptRecord>>)
    requires OptStartsAt(data, off)
    ensures r.Ok? ==> off + 11 <= r.value.end <= |data|
  {
    if off + 11 > |data| then Err(UnexpectedEOF)
    else
      var rdlen := ReadU16(data, off + 9);
      if off + 11 + rdlen > |data| then Err(UnexpectedEOF)
      else
        var d :- RDataSpec(TypeOPT, data[off + 11..off + 11 + rdlen], data);
        Ok(At(OptRecord(ReadU16(data, off + 3), data[off + 5], data[off + 6], ReadU16(data, off + 7), d), off + 11 + rdlen))
  }

  // ---------- sections ----------

  function Questions(data: seq<byte>, off: nat, n: nat): (r: Result<At<seq<Question>>>)
    requires off <= |data|
    ensures r.Ok? ==> |r.value.value| == n && off + 5 * n <= r.value.end <= |data|
    decreases n
  {
    if n == 0 then Ok(At([], off))
    else
      var q :- QuestionAt(data, off);
      var rest :- Questions(data, q.end, n - 1);
      Ok(At([q.value] + rest.value, rest.end))
  }

  function Records(data: seq<byte>, off: nat, n: nat): (r: Result<At<seq<ResourceRecord>>>)
    requires off <= |data|
    ensures r.Ok? ==> |r.value.value| == n && off + 11 * n <= r.value.end <= |data|
    decreases n
  {
    if n == 0 then Ok(At([], off))
    else
      var rec :- RecordAt(data, off);
      var rest :- Records(data, rec.end, n - 1);
      Ok(At([rec.value] + rest.value, rest.end))
  }

  datatype Extra = Extra(records: seq<ResourceRecord>, opt: Option<OptRecord>)

  function OptCount(opt: Option<OptRecord>): nat {
    if opt.Some? then 1 else 0
  }

  // The additional section: records and at most one OPT pseudo-record.
  function Additional(data: seq<byte>, off: nat, n: nat, opt: Option<OptRecord>): (r: Result<At<Extra>>)
    requires off <= |data|
    ensures r.Ok? ==> |r.value.value.records| + OptCount(r.value.value.opt) == n + OptCount(opt)
    ensures r.Ok? ==> off + 11 * n <= r.value.end <= |data| && (opt.Some? ==> r.value.value.opt == opt)
    decreases n
  {
    if n == 0 then Ok(At(Extra([], opt), off))
    else if OptStartsAt(data, off) then
      if opt.Some? then Err(AdditionalOPT)
      else
        var o :- OptAt(data, off);
        Additional(data, o.end, n - 1, Some(o.value))
    else
      var rec :- RecordAt(data, off);
      var rest :- Additional(data, rec.end, n - 1, opt);
      Ok(At(Extra([rec.value] + rest.value.records, rest.value.opt), rest.end))
  }

  function PacketSpec(data: seq<byte>): Result<Packet> {
    var h :- H.Parse(data);
    var qs :- Questions(data, 12, h.questions);
    var ans :- Records(data, qs.end, h.answers);
    var nss :- Records(data, ans.end, h.nameservers);
    var add :- Additional(data, nss.end, h.additional, None);
    Ok(Packet(h, qs.value, ans.value, nss.value, add.value.records, add.value.opt))
  }

  // ---------- the parser's loops ----------

  method ParseQuestion(data: seq<byte>, offset: nat) returns (r: Result<At<Question>>)
    requires offset <= |data|
    ensures r == QuestionAt(data, offset)
  {
    var name := Scan(data[offset..], data);
    if name.Err? { return Err(name.error); }
    var off := offset + |name.value.labels|;
    if off + 4 > |data| { return Err(UnexpectedEOF); }
    var qtype := ParseQueryType(ReadU16(data, off));
    if qtype.Err? { return Err(qtype.error); }
    off := off + 2;
    var q := ParseQClassCode(ReadU16(data, off));
    if q.Err? { return Err(q.error); }
    off := off + 2;
    return Ok(At(Question(name.value, q.value.0, qtype.value, q.value.1), off));
  }

  method ParseRecord(data: seq<byte>, offset: nat) returns (r: Result<At<ResourceRecord>>)
    requires offset <= |data|
    ensures r == RecordAt(data, offset)
  {
    hide RDataSpec, Walk, ParseType, ParseClass;
    var name := Scan(data[offset..], data);
    if name.Err? { return Err(name.error); }
    var off := offset + |name.value.labels|;
    if off + 10 > |data| { return Err(UnexpectedEOF); }
    var typ := ParseType(ReadU16(data, off));
    if typ.Err? { return Err(typ.error); }
    off := off + 2;
    var cls := ParseClassCode(ReadU16(data, off));
    if cls.Err? { return Err(cls.error); }
    off := off + 2;
    var ttl := ReadU32(data, off);
    if ttl > 0x7FFF_FFFF { ttl := 0; }
    off := off + 4;
    var rdlen := ReadU16(data, off);
    off := off + 2;
    if off + rdlen > |data| { return Err(UnexpectedEOF); }
    var d := ParseRData(typ.value, data[off..off + rdlen], data);
    if d.Err? { return Err(d.error); }
    off := off + rdlen;
    return Ok(At(ResourceRecord(name.value, cls.value.0, cls.value.1, ttl, d.value), off));
  }

  // The caller has seen the root name and the OPT type code, so the type check cannot fail.
  method ParseOptRecord(data: seq<byte>, offset: nat) returns (r: Result<At<OptRecord>>)
    requires OptStartsAt(data, offset)
    ensures r == OptAt(data, offset)
  {
    if offset + 11 > |data| { return Err(UnexpectedEOF); }
    var off := offset + 1;
    assert data[offset..offset + 3][1] == data[off] && data[offset..offset + 3][2] == data[off + 1];
    assert ParseType(ReadU16(data, off)) == Ok(TypeOPT);
    off := off + 2;
    var udp := ReadU16(data, off);
    off := off + 2;
    var extrcode := data[off];
    off := off + 1;
    var version := data[off];
    off := off + 1;
    var flags := ReadU16(data, off);
    off := off + 2;
    var rdlen := ReadU16(data, off);
    off := off + 2;
    if off + rdlen > |data| { return Err(UnexpectedEOF); }
    var d := ParseRData(TypeOPT, data[off..off + rdlen], data);
    off := off + rdlen;
    return Ok(At(OptRecord(udp, extrcode, version, flags, d.value), off));
  }

  // What has been parsed so far, followed by the rest of a section.
  ghost function Prepend<T>(done: seq<T>, rest: Result<At<seq<T>>>): Result<At<seq<T>>> {
    if rest.Ok? then Ok(At(done + rest.value.value, rest.value.end)) else rest
  }

  lemma PrependNothing<T>(rest: Result<At<seq<T>>>)
    ensures Prepend([], rest) == rest
  {
    assert rest.Ok? ==> [] + rest.value.value == rest.value.value;
  }

  method ParseQuestions(data: seq<byte>, offset: nat, n: nat) returns (r: Result<At<seq<Question>>>)
    requires offset <= |data|
    ensures r == Questions(data, offset, n)
  {
    hide QuestionAt;
    var off: nat := offset;
    var questions: seq<Question> := [];
    PrependNothing(Questions(data, offset, n));
    for i := 0 to n
      invariant off <= |data|
      invariant Questions(data, offset, n) == Prepend(questions, Questions(data, off, n - i))
    {
      var q := ParseQuestion(data, off);
      if q.Err? { return Err(q.error); }
      ghost var rest := Questions(data, q.value.end, n - i - 1);
      assert rest.Ok? ==> questions + ([q.value.value] + rest.value.value) == (questions + [q.value.value]) + rest.value.value;
      questions := questions + [q.value.value];
      off := q.value.end;
    }
    assert questions + [] == questions;
    return Ok(At(questions, off));
  }

  method ParseRecords(data: seq<byte>, offset: nat, n: nat) returns (r: Result<At<seq<ResourceRecord>>>)
    requires offset <= |data|
    ensures r == Records(data, offset, n)
  {
    hide RecordAt;
    var off: nat := offset;
    var records: seq<ResourceRecord> := [];
    PrependNothing(Records(data, offset, n));
    for i := 0 to n
      invariant off <= |data|
      invariant Records(data, offset, n) == Prepend(records, Records(data, off, n - i))
    {
      var rec := ParseRecord(data, off);
      if rec.Err? { return Err(rec.error); }
      ghost var rest := Records(data, rec.value.end, n - i - 1);
      assert rest.Ok? ==> records + ([rec.value.value] + rest.value.value) == (records + [rec.value.value]) + rest.value.value;
      records := records + [rec.value.value];
      off := rec.value.end;
    }
    assert records + [] == records;
    return Ok(At(records, off));
  }

  ghost function PrependExtra(done: seq<ResourceRecord>, rest: Result<At<Extra>>): Result<At<Extra>> {
    if rest.Ok? then Ok(At(Extra(done + rest.value.value.records, rest.value.value.opt), rest.value.end)) else rest
  }

  method ParseAdditional(data: seq<byte>, offset: nat, n: nat) returns (r: Result<At<Extra>>)
    requires offset <= |data|
    ensures r == Additional(data, offset, n, None)
  {
    hide RecordAt, OptAt, OptStartsAt;
    var off: nat := offset;
    var additional: seq<ResourceRecord> := [];
    var opt: Option<OptRecord> := None;
    ghost var all := Additional(data, offset, n, None);
    assert all.Ok? ==> [] + all.value.value.records == all.value.value.records;
    for i := 0 to n
      invariant off <= |data|
      invariant Additional(data, offset, n, None) == PrependExtra(additional, Additional(data, off, n - i, opt))
    {
      if OptStartsAt(data, off) {
        if opt.Some? { return Err(AdditionalOPT); }
        var o := ParseOptRecord(data, off);
        if o.Err? { return Err(o.error); }
        opt := Some(o.value.value);
        off := o.value.end;
      } else {
        var rec := ParseRecord(data, off);
        if rec.Err? { return Err(rec.error); }
        ghost var rest := Additional(data, rec.value.end, n - i - 1, opt);
        assert rest.Ok? ==> additional + ([rec.value.value] + rest.value.value.records)
                            == (additional + [rec.value.value]) + rest.value.value.records;
        additional := additional + [rec.value.value];
        off := rec.value.end;
      }
    }
    assert additional + [] == additional;
    return Ok(At(Extra(additional, opt), off));
  }

  // Total on every byte string: each index is in range, whatever the bytes.
  method Parse(data: seq<byte>) returns (r: Result<Packet>)
    ensures r == PacketSpec(data)
  {
    var h := H.Parse(data);
    if h.Err? { return Err(h.error); }
    var qs := ParseQuestions(data, 12, h.value.questions);
    if qs.Err? { return Err(qs.error); }
    var ans := ParseRecords(data, qs.value.end, h.value.answers);
    if ans.Err? { return Err(ans.error); }
    var nss := ParseRecords(data, ans.value.end, h.value.nameservers);
    if nss.Err? { return Err(nss.error); }
    var add := ParseAdditional(data, nss.value.end, h.value.additional);
    if add.Err? { return Err(add.error); }
    return Ok(Packet(h.value, qs.value.value, ans.value.value, nss.value.value, add.value.value.records, add.value.value.opt));
  }

  // ---------- what a parsed packet satisfies ----------

  // The sections are as long as the header says, an OPT record counting as an additional one, and the
  // message is long enough to hold them all.
  lemma SectionsMatchHeader(data: seq<byte>)
    requires PacketSpec(data).Ok?
    ensures var p := PacketSpec(data).value;
            && |p.questions| == p.header.questions
            && |p.answers| == p.header.answers
            && |p.nameservers| == p.header.nameservers
            && |p.additional| + OptCount(p.opt) == p.header.additional
            && |data| >= 12 + 5 * |p.questions| + 11 * (|p.answers| + |p.nameservers| + p.header.additional)
  {
  }

  ghost predicate QuestionsPrintable(qs: seq<Question>) {
    forall i :: 0 <= i < |qs| ==> Scanned(qs[i].qname, |qs[i].qname.original|)
  }

  ghost predicate RecordsPrintable(rs: seq<ResourceRecord>) {
    forall i :: 0 <= i < |rs| ==> Scanned(rs[i].name, |rs[i].name.original|) && NamesPrintable(rs[i].data)
  }

  lemma {:induction false} QuestionNames(data: seq<byte>, off: nat, n: nat)
    requires off <= |data| && Questions(data, off, n).Ok?
    ensures QuestionsPrintable(Questions(data, off, n).value.value)
    decreases n
  {
    if n > 0 {
      ScanGivesScanned(data[off..], data);
      QuestionNames(data, QuestionAt(data, off).value.end, n - 1);
    }
  }

  lemma RecordNames(data: seq<byte>, off: nat)
    requires off <= |data| && RecordAt(data, off).Ok?
    ensures RecordsPrintable([RecordAt(data, off).value.value])
  {
    ScanGivesScanned(data[off..], data);
    var at := off + |ScanSpec(data[off..], data).value.labels|;
    var rdlen := ReadU16(data, at + 8);
    ParsedNamesPrintable(ParseType(ReadU16(data, at)).value, data[at + 10..at + 10 + rdlen], data);
  }

  lemma {:induction false} RecordsNames(data: seq<byte>, off: nat, n: nat)
    requires off <= |data| && Records(data, off, n).Ok?
    ensures RecordsPrintable(Records(data, off, n).value.value)
    decreases n
  {
    if n == 0 {
      assert Records(data, off, 0).value.value == [];
    } else {
      hide RecordAt, RecordsPrintable, Scanned, NamesPrintable;
      RecordNames(data, off);
      var rec := RecordAt(data, off).value;
      RecordsNames(data, rec.end, n - 1);
      PrintableCons(rec.value, Records(data, rec.end, n - 1).value.value);
    }
  }

  lemma {:induction false} AdditionalNames(data: seq<byte>, off: nat, n: nat, opt: Option<OptRecord>)
    requires off <= |data| && Additional(data, off, n, opt).Ok?
    ensures RecordsPrintable(Additional(data, off, n, opt).value.value.records)
    decreases n
  {
    hide RecordAt, OptAt, OptStartsAt, Scanned, NamesPrintable;
    if n > 0 {
      AdditionalUnfolds(data, off, n, opt);
      if OptStartsAt(data, off) {
        var o := OptAt(data, off).value;
        AdditionalNames(data, o.end, n - 1, Some(o.value));
      } else {
        RecordNames(data, off);
        var rec := RecordAt(data, off).value;
        AdditionalNames(data, rec.end, n - 1, opt);
        PrintableCons(rec.value, Additional(data, rec.end, n - 1, opt).value.value.records);
      }
    }
  }

  lemma AdditionalUnfolds(data: seq<byte>, off: nat, n: nat, opt: Option<OptRecord>)
    requires off <= |data| && n > 0 && Additional(data, off, n, opt).Ok?
    ensures var r := Additional(data, off, n, opt).value;
            if OptStartsAt(data, off) then
              && opt.None? && OptAt(data, off).Ok?
              && Additional(data, OptAt(data, off).value.end, n - 1, Some(OptAt(data, off).value.value)) == Ok(r)
            else
              && RecordAt(data, off).Ok?
              && var rec := RecordAt(data, off).value;
                 var rest := Additional(data, rec.end, n - 1, opt);
                 rest.Ok? && r.value == rest.value.value.(records := [rec.value] + rest.value.value.records) && r.end == rest.value.end
  {
    hide RecordAt, OptAt, OptStartsAt;
  }

  lemma PrintableCons(rec: ResourceRecord, rest: seq<ResourceRecord>)
    requires RecordsPrintable([rec]) && RecordsPrintable(rest)
    ensures RecordsPrintable([rec] + rest)
  {
    assert [rec][0] == rec;
  }

  // Every name anywhere in a parsed packet can be printed without failing.
  lemma EveryNamePrintable(data: seq<byte>)
    requires PacketSpec(data).Ok?
    ensures var p := PacketSpec(data).value;
            && QuestionsPrintable(p.questions) && RecordsPrintable(p.answers)
            && RecordsPrintable(p.nameservers) && RecordsPrintable(p.additional)
  {
    var h := H.Parse(data).value;
    var qs := Questions(data, 12, h.questions).value;
    var ans := Records(data, qs.end, h.answers).value;
    var nss := Records(data, ans.end, h.nameservers).value;
    QuestionNames(data, 12, h.questions);
    RecordsNames(data, qs.end, h.answers);
    RecordsNames(data, ans.end, h.nameservers);
    AdditionalNames(data, nss.end, h.additional, None);
  }
}
