// The twelve-byte message header of section 4.1.1 of RFC 1035.
module DnsHeader {
  import opened DnsTypes

  const QUERY: bv16 := 0x8000
  const OPCODE_MASK: bv16 := 0x7800
  const AUTHORITATIVE: bv16 := 0x0400
  const TRUNCATED: bv16 := 0x0200
  const RECURSION_DESIRED: bv16 := 0x0100
  const RECURSION_AVAILABLE: bv16 := 0x0080
  const RESERVED_MASK: bv16 := 0x0040
  const AUTHENTICATED_DATA: bv16 := 0x0020
  const CHECKING_DISABLED: bv16 := 0x0010
  const RESPONSE_CODE_MASK: bv16 := 0x000F

  datatype Opcode = StandardQuery | InverseQuery | ServerStatusRequest | ReservedOpcode(code: bv16)

  datatype ResponseCode =
    | NoError | FormatError | ServerFailure | NameError | NotImplemented | Refused | ReservedCode(code: bv8)

  function OpcodeOf(code: bv16): Opcode {
    if code == 0 then StandardQuery
    else if code == 1 then InverseQuery
    else if code == 2 then ServerStatusRequest
    else ReservedOpcode(code)
  }

  function OpcodeBits(op: Opcode): bv16 {
    match op
    case StandardQuery => 0
    case InverseQuery => 1
    case ServerStatusRequest => 2
    case ReservedOpcode(code) => code
  }

  // Codes above fifteen do not fit the four bits of the header.
  function ResponseCodeOf(code: bv8): ResponseCode
    requires code <= 15
  {
    if code == 0 then NoError
    else if code == 1 then FormatError
    else if code == 2 then ServerFailure
    else if code == 3 then NameError
    else if code == 4 then NotImplemented
    else if code == 5 then Refused
    else ReservedCode(code)
  }

  function ResponseCodeBits(rc: ResponseCode): bv8 {
    match rc
    case NoError => 0
    case FormatError => 1
    case ServerFailure => 2
    case NameError => 3
    case NotImplemented => 4
    case Refused => 5
    case ReservedCode(code) => code
  }

  // The flag word, unpacked.
  datatype Flags = Flags(
    query: bool, opcode: Opcode, authoritative: bool, truncated: bool, recursionDesired: bool,
    recursionAvailable: bool, authenticatedData: bool, checkingDisabled: bool, responseCode: ResponseCode)

  datatype Header = Header(
    id: u16, flags: Flags, questions: u16, answers: u16, nameservers: u16, additional: u16)

  function Unpack(w: bv16): Flags {
    Flags(w & QUERY == 0,
          OpcodeOf((w & OPCODE_MASK) >> 11),
          w & AUTHORITATIVE != 0, w & TRUNCATED != 0, w & RECURSION_DESIRED != 0, w & RECURSION_AVAILABLE != 0,
          w & AUTHENTICATED_DATA != 0, w & CHECKING_DISABLED != 0,
          ResponseCodeOf((w & RESPONSE_CODE_MASK) as bv8))
  }

  // Writing leaves out the two flags of RFC 2535.
  function Pack(f: Flags): bv16 {
    (OpcodeBits(f.opcode) << 11)
    | (ResponseCodeBits(f.responseCode) as bv16)
    | (if f.query then 0 else QUERY)
    | (if f.authoritative then AUTHORITATIVE else 0)
    | (if f.recursionDesired then RECURSION_DESIRED else 0)
    | (if f.recursionAvailable then RECURSION_AVAILABLE else 0)
    | (if f.truncated then TRUNCATED else 0)
  }

  function Parse(data: seq<byte>): Result<Header> {
    if |data| < 12 then Err(HeaderTooShort)
    else
      var w := ReadU16(data, 2) as bv16;
      if w & RESERVED_MASK != 0 then Err(ReservedBitsAreNonZero)
      else Ok(Header(ReadU16(data, 0), Unpack(w), ReadU16(data, 4), ReadU16(data, 6), ReadU16(data, 8), ReadU16(data, 10)))
  }

  function Bytes(h: Header): (s: seq<byte>)
    ensures |s| == 12
  {
    U16Bytes(h.id) + U16Bytes(Pack(h.flags) as int) + U16Bytes(h.questions) + U16Bytes(h.answers)
    + U16Bytes(h.nameservers) + U16Bytes(h.additional)
  }

  // Accumulates the flag word.
  method FlagWord(f: Flags) returns (w: bv16)
    ensures w == Pack(f)
  {
    w := 0;
    w := w | (OpcodeBits(f.opcode) << 11);
    w := w | (ResponseCodeBits(f.responseCode) as bv16);
    if !f.query { w := w | QUERY; }
    if f.authoritative { w := w | AUTHORITATIVE; }
    if f.recursionDesired { w := w | RECURSION_DESIRED; }
    if f.recursionAvailable { w := w | RECURSION_AVAILABLE; }
    if f.truncated { w := w | TRUNCATED; }
  }

  // Fills the first twelve bytes of a buffer.
  method Write(h: Header, buf: array<byte>)
    requires buf.Length >= 12
    modifies buf
    ensures buf[..12] == Bytes(h) && buf[12..] == old(buf[12..])
  {
    var flags := FlagWord(h.flags);
    hide Pack;
    WriteU16(buf, 0, h.id);
    WriteU16(buf, 2, flags as int);
    WriteU16(buf, 4, h.questions);
    WriteU16(buf, 6, h.answers);
    WriteU16(buf, 8, h.nameservers);
    WriteU16(buf, 10, h.additional);
  }

  method WriteU16(buf: array<byte>, at: nat, n: u16)
    requires at + 2 <= buf.Length
    modifies buf
    ensures buf[at] == U16Bytes(n)[0] && buf[at + 1] == U16Bytes(n)[1]
    ensures forall i :: 0 <= i < buf.Length && i != at && i != at + 1 ==> buf[i] == old(buf[i])
  {
    buf[at], buf[at + 1] := n / 256, n % 256;
  }

  // ---------- the codec laws ----------

  lemma WordRoundTrip(w: bv16)
    ensures (w as int) as bv16 == w
  {
  }

  // A flag word that a header can hold without loss.
  predicate Canonical(f: Flags) {
    && (f.opcode.ReservedOpcode? ==> 3 <= f.opcode.code <= 15)
    && (f.responseCode.ReservedCode? ==> 6 <= f.responseCode.code <= 15)
  }

  lemma UnpackUndoesPackIff(f: Flags)
    ensures Unpack(Pack(f)) == f && Pack(f) & RESERVED_MASK == 0 <==>
            Canonical(f) && !f.authenticatedData && !f.checkingDisabled
  {
  }

  lemma PackUndoesUnpack(w: bv16)
    requires w & RESERVED_MASK == 0
    ensures Canonical(Unpack(w))
    ensures Pack(Unpack(w)) == w & !(AUTHENTICATED_DATA | CHECKING_DISABLED)
  {
    hide Pack, Unpack, Canonical, Reassembled;
    UnpackIsCanonical(w);
    PackReassembles(w);
    ReassembledIs(w);
  }

  // A flag word put together from its fields, without AD and CD.
  function PutTogether(op: bv16, code: bv8, query: bool, authoritative: bool, desired: bool, available: bool, truncated: bool): bv16 {
    (op << 11) | (code as bv16)
    | (if query then 0 else QUERY) | (if authoritative then AUTHORITATIVE else 0)
    | (if desired then RECURSION_DESIRED else 0) | (if available then RECURSION_AVAILABLE else 0)
    | (if truncated then TRUNCATED else 0)
  }

  function Reassembled(w: bv16): bv16 {
    PutTogether((w & OPCODE_MASK) >> 11, (w & RESPONSE_CODE_MASK) as bv8, w & QUERY == 0, w & AUTHORITATIVE != 0,
                w & RECURSION_DESIRED != 0, w & RECURSION_AVAILABLE != 0, w & TRUNCATED != 0)
  }

  lemma PackReassembles(w: bv16)
    ensures Pack(Unpack(w)) == Reassembled(w)
  {
    hide Pack, Unpack, Canonical, OpcodeBits, ResponseCodeBits, PutTogether;
    UnpackIsCanonical(w);
    PackedFields(Unpack(w));
  }

  lemma ReassembledIs(w: bv16)
    requires w & RESERVED_MASK == 0
    ensures Reassembled(w) == w & !(AUTHENTICATED_DATA | CHECKING_DISABLED)
  {
  }

  lemma UnpackIsCanonical(w: bv16)
    ensures var f := Unpack(w);
            && Canonical(f) && OpcodeBits(f.opcode) == (w & OPCODE_MASK) >> 11
            && ResponseCodeBits(f.responseCode) == (w & RESPONSE_CODE_MASK) as bv8
            && (f.query <==> w & QUERY == 0) && (f.authoritative <==> w & AUTHORITATIVE != 0)
            && (f.recursionDesired <==> w & RECURSION_DESIRED != 0) && (f.recursionAvailable <==> w & RECURSION_AVAILABLE != 0)
            && (f.truncated <==> w & TRUNCATED != 0)
  {
    FieldsInPlace(w);
    CodesRoundTrip((w & OPCODE_MASK) >> 11, (w & RESPONSE_CODE_MASK) as bv8);
    hide OpcodeOf, OpcodeBits, ResponseCodeOf, ResponseCodeBits;
  }

  lemma PackedFields(f: Flags)
    ensures Pack(f) == PutTogether(OpcodeBits(f.opcode), ResponseCodeBits(f.responseCode), f.query, f.authoritative,
                                   f.recursionDesired, f.recursionAvailable, f.truncated)
  {
    hide OpcodeBits, ResponseCodeBits;
  }

  // Each field is put back where it was taken from.
  lemma FieldsInPlace(w: bv16)
    ensures ((w & OPCODE_MASK) >> 11) << 11 == w & OPCODE_MASK
    ensures ((w & RESPONSE_CODE_MASK) as bv8) as bv16 == w & RESPONSE_CODE_MASK
    ensures (w & OPCODE_MASK) >> 11 <= 15
    ensures (if w & QUERY == 0 then 0 else QUERY) == w & QUERY
    ensures (if w & AUTHORITATIVE != 0 then AUTHORITATIVE else 0) == w & AUTHORITATIVE
    ensures (if w & RECURSION_DESIRED != 0 then RECURSION_DESIRED else 0) == w & RECURSION_DESIRED
    ensures (if w & RECURSION_AVAILABLE != 0 then RECURSION_AVAILABLE else 0) == w & RECURSION_AVAILABLE
    ensures (if w & TRUNCATED != 0 then TRUNCATED else 0) == w & TRUNCATED
  {
  }

  lemma CodesRoundTrip(op: bv16, code: bv8)
    ensures OpcodeBits(OpcodeOf(op)) == op
    ensures OpcodeOf(op).ReservedOpcode? ==> 3 <= OpcodeOf(op).code == op
    ensures code <= 15 ==> ResponseCodeBits(ResponseCodeOf(code)) == code
    ensures code <= 15 && ResponseCodeOf(code).ReservedCode? ==> 6 <= ResponseCodeOf(code).code == code
  {
  }

  // Reading the fields of a written header back.
  lemma BytesFields(h: Header, after: seq<byte>)
    ensures var s := Bytes(h) + after;
            && ReadU16(s, 0) == h.id && ReadU16(s, 2) == Pack(h.flags) as int && ReadU16(s, 4) == h.questions
            && ReadU16(s, 6) == h.answers && ReadU16(s, 8) == h.nameservers && ReadU16(s, 10) == h.additional
  {
  }

  // Parsing what was written gives the header back exactly when it is canonical with AD and CD clear.
  lemma ParseUndoesWriteIff(h: Header, after: seq<byte>)
    ensures Parse(Bytes(h) + after) == Ok(h) <==>
            Canonical(h.flags) && !h.flags.authenticatedData && !h.flags.checkingDisabled
  {
    BytesFields(h, after);
    WordRoundTrip(Pack(h.flags));
    UnpackUndoesPackIff(h.flags);
  }

  // Writing what was parsed gives the same twelve bytes back, with the AD and CD bits cleared.
  lemma WriteUndoesParse(data: seq<byte>)
    requires Parse(data).Ok?
    ensures var s := Bytes(Parse(data).value);
            && s[..2] == data[..2] && s[4..] == data[4..12]
            && ReadU16(s, 2) as bv16 == ReadU16(data, 2) as bv16 & !(AUTHENTICATED_DATA | CHECKING_DISABLED)
  {
    var h := Parse(data).value;
    hide Pack, Unpack, Bytes, Parse, ReadU16, U16Bytes;
    ParseFields(data);
    BytesParts(h);
    PackUndoesUnpack(ReadU16(data, 2) as bv16);
    WordRoundTrip(Pack(h.flags));
    SixBack(data);
  }

  lemma ParseFields(data: seq<byte>)
    requires Parse(data).Ok?
    ensures var h := Parse(data).value;
            && |data| >= 12 && (ReadU16(data, 2) as bv16) & RESERVED_MASK == 0
            && h.id == ReadU16(data, 0) && h.flags == Unpack(ReadU16(data, 2) as bv16) && h.questions == ReadU16(data, 4)
            && h.answers == ReadU16(data, 6) && h.nameservers == ReadU16(data, 8) && h.additional == ReadU16(data, 10)
  {
    hide Unpack, ReadU16;
  }

  lemma BytesParts(h: Header)
    ensures var s := Bytes(h);
            && s[..2] == U16Bytes(h.id) && ReadU16(s, 2) == Pack(h.flags) as int
            && s[4..] == U16Bytes(h.questions) + U16Bytes(h.answers) + U16Bytes(h.nameservers) + U16Bytes(h.additional)
  {
    hide Pack;
    var flags := U16Bytes(Pack(h.flags) as int);
    SixParts(U16Bytes(h.id), flags, U16Bytes(h.questions), U16Bytes(h.answers), U16Bytes(h.nameservers), U16Bytes(h.additional));
  }

  lemma SixParts<T>(a: seq<T>, b: seq<T>, c: seq<T>, d: seq<T>, e: seq<T>, f: seq<T>)
    requires |a| == |b| == |c| == |d| == |e| == |f| == 2
    ensures var s := a + b + c + d + e + f;
            s[..2] == a && s[2] == b[0] && s[3] == b[1] && s[4..] == c + d + e + f
  {
    var s := a + b + c + d + e + f;
    assert s == a + b + (c + d + e + f);
    assert (a + b + (c + d + e + f))[4..] == c + d + e + f;
  }

  lemma SixBack(data: seq<byte>)
    requires |data| >= 12
    ensures data[..2] == U16Bytes(ReadU16(data, 0))
    ensures data[4..12] == U16Bytes(ReadU16(data, 4)) + U16Bytes(ReadU16(data, 6)) + U16Bytes(ReadU16(data, 8)) + U16Bytes(ReadU16(data, 10))
  {
    ReadU16Iff(data, 0, ReadU16(data, 0));
    ReadU16Iff(data, 4, ReadU16(data, 4));
    ReadU16Iff(data, 6, ReadU16(data, 6));
    ReadU16Iff(data, 8, ReadU16(data, 8));
    ReadU16Iff(data, 10, ReadU16(data, 10));
    hide ReadU16, U16Bytes;
    assert data[0..2] == data[..2];
    assert data[4..12] == data[4..6] + data[6..8] + data[8..10] + data[10..12];
  }

  // The flag word of a header as it stands in a message, AD and CD included.
  function FlagBits(f: Flags): bv16 {
    Pack(f) | (if f.authenticatedData then AUTHENTICATED_DATA else 0) | (if f.checkingDisabled then CHECKING_DISABLED else 0)
  }

  lemma UnpackIff(w: bv16, f: Flags)
    ensures w & RESERVED_MASK == 0 && Unpack(w) == f <==> Canonical(f) && w == FlagBits(f)
  {
    if w & RESERVED_MASK == 0 && Unpack(w) == f {
      PackUndoesUnpack(w);
      FlagsPutBack(w);
    }
    if Canonical(f) && w == FlagBits(f) {
      UnpackFlagBits(f);
    }
  }

  lemma FlagsPutBack(w: bv16)
    ensures (w & !(AUTHENTICATED_DATA | CHECKING_DISABLED))
            | (if w & AUTHENTICATED_DATA != 0 then AUTHENTICATED_DATA else 0)
            | (if w & CHECKING_DISABLED != 0 then CHECKING_DISABLED else 0) == w
  {
  }

  lemma UnpackFlagBits(f: Flags)
    requires Canonical(f)
    ensures FlagBits(f) & RESERVED_MASK == 0 && Unpack(FlagBits(f)) == f
  {
  }

  // Data starts with a header exactly when its fields, with canonical codes in the flag word, stand there.
  ghost predicate Encoded(h: Header, data: seq<byte>) {
    && Canonical(h.flags) && |data| >= 12
    && data[..2] == U16Bytes(h.id) && ReadU16(data, 2) as bv16 == FlagBits(h.flags)
    && data[4..6] == U16Bytes(h.questions) && data[6..8] == U16Bytes(h.answers)
    && data[8..10] == U16Bytes(h.nameservers) && data[10..12] == U16Bytes(h.additional)
  }

  lemma HeaderAcceptsIff(data: seq<byte>, h: Header)
    ensures Parse(data) == Ok(h) <==> Encoded(h, data)
  {
    if |data| >= 12 {
      UnpackIff(ReadU16(data, 2) as bv16, h.flags);
      WordsIff(data, h);
    }
    hide FlagBits, Unpack, Canonical, ReadU16, U16Bytes;
  }

  lemma WordsIff(data: seq<byte>, h: Header)
    requires |data| >= 12
    ensures data[..2] == U16Bytes(h.id) <==> ReadU16(data, 0) == h.id
    ensures data[4..6] == U16Bytes(h.questions) <==> ReadU16(data, 4) == h.questions
    ensures data[6..8] == U16Bytes(h.answers) <==> ReadU16(data, 6) == h.answers
    ensures data[8..10] == U16Bytes(h.nameservers) <==> ReadU16(data, 8) == h.nameservers
    ensures data[10..12] == U16Bytes(h.additional) <==> ReadU16(data, 10) == h.additional
  {
    ReadU16Iff(data, 0, h.id);
    ReadU16Iff(data, 4, h.questions);
    ReadU16Iff(data, 6, h.answers);
    ReadU16Iff(data, 8, h.nameservers);
    ReadU16Iff(data, 10, h.additional);
    assert data[0..2] == data[..2];
    hide ReadU16, U16Bytes;
  }
}
