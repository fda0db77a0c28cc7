// The data of resource records.
module DnsRData {
  import opened DnsTypes
  import opened DnsName

  datatype SoaRecord = SoaRecord(
    primaryNs: Name, mailbox: Name, serial: nat, refresh: nat, retry: nat, expire: nat, minimumTtl: nat)

  datatype RRData =
    | CName(name: Name)
    | Ns(name: Name)
    | A4(addr: nat)
    | A6(groups: seq<u16>)
    | Srv(priority: u16, weight: u16, port: u16, target: Name)
    | Soa(soa: SoaRecord)
    | Ptr(name: Name)
    | Mx(preference: u16, exchange: Name)
    | Txt(text: seq<byte>)
    | Unknown(raw: seq<byte>)

  // ---------- UTF-8 ----------

  predicate Continues(b: byte) {
    0x80 <= b < 0xC0
  }

  // How many bytes the first character takes, or zero if no well-formed character starts here.
  function CharLen(s: seq<byte>): (n: nat)
    ensures n <= |s|
  {
    if s == [] then 0
    else if s[0] < 0x80 then 1
    else if |s| >= 2 && 0xC2 <= s[0] < 0xE0 && Continues(s[1]) then 2
    else if |s| >= 3 && 0xE0 <= s[0] < 0xF0 && Continues(s[1]) && Continues(s[2])
            && (s[0] == 0xE0 ==> s[1] >= 0xA0) && (s[0] == 0xED ==> s[1] < 0xA0) then 3
    else if |s| >= 4 && 0xF0 <= s[0] < 0xF5 && Continues(s[1]) && Continues(s[2]) && Continues(s[3])
            && (s[0] == 0xF0 ==> s[1] >= 0x90) && (s[0] == 0xF4 ==> s[1] < 0x90) then 4
    else 0
  }

  predicate IsUtf8(s: seq<byte>)
    decreases |s|
  {
    s == [] || (CharLen(s) > 0 && IsUtf8(s[CharLen(s)..]))
  }

  // ---------- TXT ----------

  // Length-prefixed character strings, joined.
  function TxtFrom(s: seq<byte>): Result<seq<byte>>
    decreases |s|
  {
    if s == [] then Ok([])
    else
      var end := s[0] as int + 1;
      if |s| < end then Err(WrongRdataLength)
      else if !IsUtf8(s[1..end]) then Err(TxtDataIsNotUTF8)
      else
        var rest :- TxtFrom(s[end..]);
        Ok(s[1..end] + rest)
  }

  function TxtSpec(rdata: seq<byte>): Result<seq<byte>> {
    if rdata == [] then Err(WrongRdataLength) else TxtFrom(rdata)
  }

  // What remains to be read, with `text` read so far, leads to the same answer.
  ghost predicate TxtGoesOn(full: Result<seq<byte>>, text: seq<byte>, rest: Result<seq<byte>>) {
    full == if rest.Ok? then Ok(text + rest.value) else rest
  }

  lemma TxtStep(rdata: seq<byte>, pos: nat, text: seq<byte>, full: Result<seq<byte>>)
    requires pos < |rdata| && TxtGoesOn(full, text, TxtFrom(rdata[pos..]))
    ensures var start, end := pos + 1, pos + 1 + rdata[pos];
            && (|rdata| < end ==> full == Err(WrongRdataLength))
            && (end <= |rdata| && !IsUtf8(rdata[start..end]) ==> full == Err(TxtDataIsNotUTF8))
            && (end <= |rdata| && IsUtf8(rdata[start..end]) ==>
                  TxtGoesOn(full, text + rdata[start..end], TxtFrom(rdata[end..])))
  {
    hide IsUtf8;
    var s := rdata[pos..];
    var n := rdata[pos];
    if pos + 1 + n <= |rdata| {
      assert s[1..n + 1] == rdata[pos + 1..pos + 1 + n] && s[n + 1..] == rdata[pos + 1 + n..];
      var rest := TxtFrom(s[n + 1..]);
      if rest.Ok? {
        assert text + s[1..n + 1] + rest.value == text + (s[1..n + 1] + rest.value);
      }
    }
  }

  lemma TxtEnds(rdata: seq<byte>, full: Result<seq<byte>>)
    ensures TxtGoesOn(TxtFrom(rdata), [], TxtFrom(rdata[0..]))
    ensures forall text :: TxtGoesOn(full, text, TxtFrom(rdata[|rdata|..])) ==> full == Ok(text)
  {
    assert rdata[0..] == rdata && rdata[|rdata|..] == [];
    if TxtFrom(rdata).Ok? {
      assert [] + TxtFrom(rdata).value == TxtFrom(rdata).value;
    }
    forall text | TxtGoesOn(full, text, TxtFrom([])) ensures full == Ok(text) {
      assert text + [] == text;
    }
  }

  method ParseTxt(rdata: seq<byte>) returns (r: Result<seq<byte>>)
    ensures r == TxtSpec(rdata)
  {
    var len := |rdata|;
    if len < 1 {
      return Err(WrongRdataLength);
    }
    var text: seq<byte> := [];
    var pos := 0;
    ghost var full := TxtFrom(rdata);
    TxtEnds(rdata, full);
    hide IsUtf8, TxtFrom, TxtGoesOn;
    while pos < len
      invariant 0 <= pos <= len && TxtGoesOn(full, text, TxtFrom(rdata[pos..]))
    {
      TxtStep(rdata, pos, text, full);
      var rdlen := rdata[pos];
      pos := pos + 1;
      if len < rdlen + pos {
        return Err(WrongRdataLength);
      }
      if !IsUtf8(rdata[pos..pos + rdlen]) {
        return Err(TxtDataIsNotUTF8);
      }
      text := text + rdata[pos..pos + rdlen];
      pos := pos + rdlen;
    }
    return Ok(text);
  }

  function TxtBytes(strings: seq<seq<byte>>): seq<byte>
    requires forall i :: 0 <= i < |strings| ==> |strings[i]| < 256
  {
    if strings == [] then [] else [|strings[0]|] + strings[0] + TxtBytes(strings[1..])
  }

  function Concat(strings: seq<seq<byte>>): seq<byte> {
    if strings == [] then [] else strings[0] + Concat(strings[1..])
  }

  ghost predicate TxtStrings(strings: seq<seq<byte>>, rdata: seq<byte>, text: seq<byte>) {
    && (forall i :: 0 <= i < |strings| ==> |strings[i]| < 256 && IsUtf8(strings[i]))
    && TxtBytes(strings) == rdata && Concat(strings) == text
  }

  lemma {:induction false} TxtReadsStrings(strings: seq<seq<byte>>, rdata: seq<byte>, text: seq<byte>)
    requires TxtStrings(strings, rdata, text)
    ensures TxtFrom(rdata) == Ok(text)
  {
    if strings != [] {
      TxtReadsStrings(strings[1..], TxtBytes(strings[1..]), Concat(strings[1..]));
      assert rdata[1..rdata[0] + 1] == strings[0];
      assert rdata[rdata[0] + 1..] == TxtBytes(strings[1..]);
    }
  }

  lemma {:induction false} TxtHasStrings(rdata: seq<byte>) returns (strings: seq<seq<byte>>)
    requires TxtFrom(rdata).Ok?
    ensures TxtStrings(strings, rdata, TxtFrom(rdata).value)
    decreases |rdata|
  {
    if rdata == [] {
      strings := [];
    } else {
      var end := rdata[0] as int + 1;
      var rest := TxtHasStrings(rdata[end..]);
      strings := [rdata[1..end]] + rest;
      TxtStringsCons(rdata[1..end], rest, rdata[end..], TxtFrom(rdata[end..]).value);
      assert rdata == [end - 1] + rdata[1..end] + rdata[end..];
      hide IsUtf8, TxtStrings;
    }
  }

  lemma TxtStringsCons(first: seq<byte>, rest: seq<seq<byte>>, rdata: seq<byte>, text: seq<byte>)
    requires |first| < 256 && IsUtf8(first) && TxtStrings(rest, rdata, text)
    ensures TxtStrings([first] + rest, [|first|] + first + rdata, first + text)
  {
    assert ([first] + rest)[1..] == rest;
  }

  // TXT data is accepted with a text exactly when it is a list of character strings with that text.
  lemma TxtAcceptsIff(rdata: seq<byte>, text: seq<byte>)
    ensures TxtSpec(rdata) == Ok(text) <==> rdata != [] && exists strings :: TxtStrings(strings, rdata, text)
  {
    if TxtFrom(rdata) == Ok(text) {
      var strings := TxtHasStrings(rdata);
    }
    forall strings | TxtStrings(strings, rdata, text) ensures TxtFrom(rdata) == Ok(text) {
      TxtReadsStrings(strings, rdata, text);
    }
  }

  // ---------- all record types ----------

  function SoaSpec(rdata: seq<byte>, original: seq<byte>): Result<RRData> {
    var ns :- ScanSpec(rdata, original);
    var pos := |ns.labels|;
    var mailbox :- ScanSpec(rdata[pos..], original);
    var pos := pos + |mailbox.labels|;
    if |rdata| - pos < 20 then Err(WrongRdataLength)
    else Ok(Soa(SoaRecord(ns, mailbox, ReadU32(rdata, pos), ReadU32(rdata, pos + 4), ReadU32(rdata, pos + 8),
                          ReadU32(rdata, pos + 12), ReadU32(rdata, pos + 16))))
  }

  function RDataSpec(typ: Type, rdata: seq<byte>, original: seq<byte>): Result<RRData> {
    match typ
    case TypeA => if |rdata| != 4 then Err(WrongRdataLength) else Ok(A4(ReadU32(rdata, 0)))
    case TypeAAAA =>
      if |rdata| != 16 then Err(WrongRdataLength)
      else Ok(A6([ReadU16(rdata, 0), ReadU16(rdata, 2), ReadU16(rdata, 4), ReadU16(rdata, 6),
                  ReadU16(rdata, 8), ReadU16(rdata, 10), ReadU16(rdata, 12), ReadU16(rdata, 14)]))
    case TypeCNAME => var name :- ScanSpec(rdata, original); Ok(CName(name))
    case TypeNS => var name :- ScanSpec(rdata, original); Ok(Ns(name))
    case TypePTR => var name :- ScanSpec(rdata, original); Ok(Ptr(name))
    case TypeMX =>
      if |rdata| < 3 then Err(WrongRdataLength)
      else var name :- ScanSpec(rdata[2..], original); Ok(Mx(ReadU16(rdata, 0), name))
    case TypeSRV =>
      if |rdata| < 7 then Err(WrongRdataLength)
      else
        var name :- ScanSpec(rdata[6..], original);
        Ok(Srv(ReadU16(rdata, 0), ReadU16(rdata, 2), ReadU16(rdata, 4), name))
    case TypeSOA => SoaSpec(rdata, original)
    case TypeTXT => var text :- TxtSpec(rdata); Ok(Txt(text))
    case _ => Ok(Unknown(rdata))
  }

  method ParseSoa(rdata: seq<byte>, original: seq<byte>) returns (r: Result<RRData>)
    ensures r == SoaSpec(rdata, original)
  {
    hide ReadU32, Walk;
    var pos := 0;
    var ns := Scan(rdata, original);
    if ns.Err? { return Err(ns.error); }
    pos := pos + |ns.value.labels|;
    var mailbox := Scan(rdata[pos..], original);
    if mailbox.Err? { return Err(mailbox.error); }
    pos := pos + |mailbox.value.labels|;
    if |rdata[pos..]| < 20 {
      return Err(WrongRdataLength);
    }
    return Ok(Soa(SoaRecord(ns.value, mailbox.value, ReadU32(rdata, pos), ReadU32(rdata, pos + 4),
                            ReadU32(rdata, pos + 8), ReadU32(rdata, pos + 12), ReadU32(rdata, pos + 16))));
  }

  method ParseRData(typ: Type, rdata: seq<byte>, original: seq<byte>) returns (r: Result<RRData>)
    ensures r == RDataSpec(typ, rdata, original)
  {
    hide ReadU32, ReadU16, Walk, TxtFrom;
    match typ {
      case TypeA =>
        if |rdata| != 4 { return Err(WrongRdataLength); }
        return Ok(A4(ReadU32(rdata, 0)));
      case TypeAAAA =>
        if |rdata| != 16 { return Err(WrongRdataLength); }
        return Ok(A6([ReadU16(rdata, 0), ReadU16(rdata, 2), ReadU16(rdata, 4), ReadU16(rdata, 6),
                      ReadU16(rdata, 8), ReadU16(rdata, 10), ReadU16(rdata, 12), ReadU16(rdata, 14)]));
      case TypeCNAME =>
        var name := Scan(rdata, original);
        return if name.Ok? then Ok(CName(name.value)) else Err(name.error);
      case TypeNS =>
        var name := Scan(rdata, original);
        return if name.Ok? then Ok(Ns(name.value)) else Err(name.error);
      case TypePTR =>
        var name := Scan(rdata, original);
        return if name.Ok? then Ok(Ptr(name.value)) else Err(name.error);
      case TypeMX =>
        if |rdata| < 3 { return Err(WrongRdataLength); }
        var name := Scan(rdata[2..], original);
        return if name.Ok? then Ok(Mx(ReadU16(rdata, 0), name.value)) else Err(name.error);
      case TypeSRV =>
        if |rdata| < 7 { return Err(WrongRdataLength); }
        var name := Scan(rdata[6..], original);
        return if name.Ok? then Ok(Srv(ReadU16(rdata, 0), ReadU16(rdata, 2), ReadU16(rdata, 4), name.value)) else Err(name.error);
      case TypeSOA =>
        r := ParseSoa(rdata, original);
      case TypeTXT =>
        var text := ParseTxt(rdata);
        return if text.Ok? then Ok(Txt(text.value)) else Err(text.error);
      case _ =>
        return Ok(Unknown(rdata));
    }
  }

  // ---------- what record data means ----------

  ghost predicate WordAt(rdata: seq<byte>, at: nat, n: nat) {
    at + 4 <= |rdata| && n < 0x1_0000_0000 && rdata[at..at + 4] == U32Bytes(n)
  }

  ghost predicate ShortAt(rdata: seq<byte>, at: nat, n: u16) {
    at + 2 <= |rdata| && rdata[at..at + 2] == U16Bytes(n)
  }

  // Two names back to back, and five words behind them.
  ghost predicate SoaEncoded(soa: SoaRecord, rdata: seq<byte>, original: seq<byte>) {
    var a := |soa.primaryNs.labels|;
    var words := a + |soa.mailbox.labels|;
    && NameHeads(soa.primaryNs, original, rdata) && NameHeads(soa.mailbox, original, rdata[a..])
    && WordAt(rdata, words, soa.serial) && WordAt(rdata, words + 4, soa.refresh) && WordAt(rdata, words + 8, soa.retry)
    && WordAt(rdata, words + 12, soa.expire) && WordAt(rdata, words + 16, soa.minimumTtl)
  }

  // The bytes hold the wire form of `d`. Bytes behind a name or behind the words of an SOA record are
  // ignored; addresses and TXT data fill the whole of it.
  ghost predicate Encoded(typ: Type, d: RRData, rdata: seq<byte>, original: seq<byte>) {
    match typ
    case TypeA => d.A4? && |rdata| == 4 && WordAt(rdata, 0, d.addr)
    case TypeAAAA => d.A6? && |rdata| == 16 && |d.groups| == 8 && forall i :: 0 <= i < 8 ==> ShortAt(rdata, 2 * i, d.groups[i])
    case TypeCNAME => d.CName? && NameHeads(d.name, original, rdata)
    case TypeNS => d.Ns? && NameHeads(d.name, original, rdata)
    case TypePTR => d.Ptr? && NameHeads(d.name, original, rdata)
    case TypeMX => d.Mx? && ShortAt(rdata, 0, d.preference) && NameHeads(d.exchange, original, rdata[2..])
    case TypeSRV =>
      && d.Srv? && ShortAt(rdata, 0, d.priority) && ShortAt(rdata, 2, d.weight) && ShortAt(rdata, 4, d.port)
      && NameHeads(d.target, original, rdata[6..])
    case TypeSOA => d.Soa? && SoaEncoded(d.soa, rdata, original)
    case TypeTXT => d.Txt? && rdata != [] && exists strings :: TxtStrings(strings, rdata, d.text)
    case _ => d == Unknown(rdata)
  }

  lemma WordIff(rdata: seq<byte>, at: nat, n: nat)
    requires at + 4 <= |rdata|
    ensures ReadU32(rdata, at) == n <==> WordAt(rdata, at, n)
  {
    ReadU32Iff(rdata, at, n);
  }

  lemma ShortIff(rdata: seq<byte>, at: nat, n: u16)
    requires at + 2 <= |rdata|
    ensures ReadU16(rdata, at) == n <==> ShortAt(rdata, at, n)
  {
    ReadU16Iff(rdata, at, n);
  }

  // SOA data is accepted with a record exactly when two names stand back to back in it with the five
  // words of the record behind them.
  lemma SoaAcceptsIff(rdata: seq<byte>, original: seq<byte>, soa: SoaRecord)
    ensures SoaSpec(rdata, original) == Ok(Soa(soa)) <==> SoaEncoded(soa, rdata, original)
  {
    hide Walk, ScanSpec, NameHeads, WordAt, ReadU32;
    ScanIff(rdata, original, soa.primaryNs);
    if ScanSpec(rdata, original) == Ok(soa.primaryNs) {
      ScanLength(rdata, original);
      var a := |soa.primaryNs.labels|;
      ScanIff(rdata[a..], original, soa.mailbox);
      if ScanSpec(rdata[a..], original) == Ok(soa.mailbox) {
        ScanLength(rdata[a..], original);
        SoaWordsIff(rdata, a + |soa.mailbox.labels|, soa);
      }
    }
  }

  predicate SoaWordsRead(rdata: seq<byte>, pos: nat, soa: SoaRecord) {
    && pos + 20 <= |rdata|
    && ReadU32(rdata, pos) == soa.serial && ReadU32(rdata, pos + 4) == soa.refresh && ReadU32(rdata, pos + 8) == soa.retry
    && ReadU32(rdata, pos + 12) == soa.expire && ReadU32(rdata, pos + 16) == soa.minimumTtl
  }

  lemma SoaWordsIff(rdata: seq<byte>, words: nat, soa: SoaRecord)
    ensures SoaWordsRead(rdata, words, soa) <==>
            && WordAt(rdata, words, soa.serial) && WordAt(rdata, words + 4, soa.refresh) && WordAt(rdata, words + 8, soa.retry)
            && WordAt(rdata, words + 12, soa.expire) && WordAt(rdata, words + 16, soa.minimumTtl)
  {
    hide ReadU32, WordAt;
    if words + 20 <= |rdata| {
      WordIff(rdata, words, soa.serial);
      WordIff(rdata, words + 4, soa.refresh);
      WordIff(rdata, words + 8, soa.retry);
      WordIff(rdata, words + 12, soa.expire);
      WordIff(rdata, words + 16, soa.minimumTtl);
    } else {
      NoWord(rdata, words + 16, soa.minimumTtl);
    }
  }

  lemma NoWord(rdata: seq<byte>, at: nat, n: nat)
    requires at + 4 > |rdata|
    ensures !WordAt(rdata, at, n)
  {
  }

  lemma ScanLength(data: seq<byte>, original: seq<byte>)
    requires ScanSpec(data, original).Ok?
    ensures 1 <= |ScanSpec(data, original).value.labels| <= |data|
  {
  }

  // Record data is accepted, with a certain meaning, exactly when it holds the wire form of it.
  lemma RDataAcceptsIff(typ: Type, rdata: seq<byte>, original: seq<byte>, d: RRData)
    ensures RDataSpec(typ, rdata, original) == Ok(d) <==> Encoded(typ, d, rdata, original)
  {
    match typ {
      case TypeA => if |rdata| == 4 && d.A4? { WordIff(rdata, 0, d.addr); }
      case TypeAAAA => GroupsIff(rdata, original, d);
      case TypeMX => MxIff(rdata, original, d);
      case TypeSRV => SrvIff(rdata, original, d);
      case TypeSOA => if d.Soa? { SoaAcceptsIff(rdata, original, d.soa); }
      case TypeTXT => if d.Txt? { TxtAcceptsIff(rdata, d.text); }
      case TypeCNAME => if d.CName? { ScanIff(rdata, original, d.name); }
      case TypeNS => if d.Ns? { ScanIff(rdata, original, d.name); }
      case TypePTR => if d.Ptr? { ScanIff(rdata, original, d.name); }
      case _ =>
    }
    hide ReadU16, ReadU32, SoaSpec, SoaEncoded, TxtSpec, TxtStrings, ScanSpec, NameHeads, WordAt, ShortAt;
  }

  lemma GroupsIff(rdata: seq<byte>, original: seq<byte>, d: RRData)
    ensures RDataSpec(TypeAAAA, rdata, original) == Ok(d) <==> Encoded(TypeAAAA, d, rdata, original)
  {
    if |rdata| == 16 && d.A6? && |d.groups| == 8 {
      forall i | 0 <= i < 8 ensures ReadU16(rdata, 2 * i) == d.groups[i] <==> ShortAt(rdata, 2 * i, d.groups[i]) {
        ShortIff(rdata, 2 * i, d.groups[i]);
      }
      hide ReadU16, ShortAt;
      var read := [ReadU16(rdata, 0), ReadU16(rdata, 2), ReadU16(rdata, 4), ReadU16(rdata, 6),
                   ReadU16(rdata, 8), ReadU16(rdata, 10), ReadU16(rdata, 12), ReadU16(rdata, 14)];
      assert forall i :: 0 <= i < 8 ==> read[i] == ReadU16(rdata, 2 * i);
      assert read == d.groups <==> forall i :: 0 <= i < 8 ==> read[i] == d.groups[i];
    }
  }

  lemma MxIff(rdata: seq<byte>, original: seq<byte>, d: RRData)
    ensures RDataSpec(TypeMX, rdata, original) == Ok(d) <==> Encoded(TypeMX, d, rdata, original)
  {
    if |rdata| >= 2 && d.Mx? {
      ShortIff(rdata, 0, d.preference);
      ScanIff(rdata[2..], original, d.exchange);
      if ScanSpec(rdata[2..], original) == Ok(d.exchange) {
        ScanLength(rdata[2..], original);
      }
    }
    hide ReadU16, ScanSpec, NameHeads, U16Bytes;
  }

  lemma SrvIff(rdata: seq<byte>, original: seq<byte>, d: RRData)
    ensures RDataSpec(TypeSRV, rdata, original) == Ok(d) <==> Encoded(TypeSRV, d, rdata, original)
  {
    if |rdata| >= 6 && d.Srv? {
      ShortIff(rdata, 0, d.priority);
      ShortIff(rdata, 2, d.weight);
      ShortIff(rdata, 4, d.port);
      ScanIff(rdata[6..], original, d.target);
      if ScanSpec(rdata[6..], original) == Ok(d.target) {
        ScanLength(rdata[6..], original);
      }
    }
    hide ReadU16, ScanSpec, NameHeads, U16Bytes;
  }

  // The names a record's data holds were scanned, so they can be printed.
  ghost predicate NamesPrintable(d: RRData) {
    match d
    case CName(name) => Scanned(name, |name.original|)
    case Ns(name) => Scanned(name, |name.original|)
    case Ptr(name) => Scanned(name, |name.original|)
    case Mx(_, name) => Scanned(name, |name.original|)
    case Srv(_, _, _, name) => Scanned(name, |name.original|)
    case Soa(soa) => Scanned(soa.primaryNs, |soa.primaryNs.original|) && Scanned(soa.mailbox, |soa.mailbox.original|)
    case _ => true
  }

  lemma ParsedNamesPrintable(typ: Type, rdata: seq<byte>, original: seq<byte>)
    requires RDataSpec(typ, rdata, original).Ok?
    ensures NamesPrintable(RDataSpec(typ, rdata, original).value)
  {
    forall data: seq<byte> | ScanSpec(data, original).Ok? ensures Scanned(ScanSpec(data, original).value, |original|) {
      ScanGivesScanned(data, original);
    }
  }
}
