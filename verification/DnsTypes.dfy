// Bytes, errors and the numeric code tables of the DNS codec.
module DnsTypes {
  import opened Wrappers

  type byte = b: int | 0 <= b < 256

  type u16 = n: int | 0 <= n < 0x1_0000

  datatype Error =
    | BadPointer
    | HeaderTooShort
    | UnexpectedEOF
    | WrongRdataLength
    | ReservedBitsAreNonZero
    | UnknownLabelFormat
    | InvalidQueryType(code: u16)
    | InvalidQueryClass(code: u16)
    | InvalidType(code: u16)
    | InvalidClass(code: u16)
    | LabelIsNotAscii
    | TxtDataIsNotUTF8
    | AdditionalOPT

  datatype Result<+T> = Ok(value: T) | Err(error: Error) {
    predicate IsFailure() {
      Err?
    }
    function PropagateFailure<U>(): Result<U>
      requires Err?
    {
      Err(error)
    }
    function Extract(): T
      requires Ok?
    {
      value
    }
  }

  // ---------- big-endian words ----------

  function ReadU16(s: seq<byte>, at: nat): u16
    requires at + 2 <= |s|
  {
    s[at] as int * 256 + s[at + 1] as int
  }

  function ReadU32(s: seq<byte>, at: nat): nat
    requires at + 4 <= |s|
  {
    ReadU16(s, at) * 0x1_0000 + ReadU16(s, at + 2)
  }

  function U16Bytes(n: u16): (s: seq<byte>)
    ensures |s| == 2
  {
    [n / 256, n % 256]
  }

  function U32Bytes(n: nat): (s: seq<byte>)
    requires n < 0x1_0000_0000
    ensures |s| == 4
  {
    U16Bytes(n / 0x1_0000) + U16Bytes(n % 0x1_0000)
  }

  lemma ReadU16Iff(s: seq<byte>, at: nat, n: u16)
    requires at + 2 <= |s|
    ensures ReadU16(s, at) == n <==> s[at..at + 2] == U16Bytes(n)
  {
    assert s[at..at + 2] == [s[at], s[at + 1]];
  }

  lemma ReadU32Iff(s: seq<byte>, at: nat, n: nat)
    requires at + 4 <= |s|
    ensures ReadU32(s, at) == n <==> n < 0x1_0000_0000 && s[at..at + 4] == U32Bytes(n)
  {
    assert s[at..at + 4] == s[at..at + 2] + s[at + 2..at + 4];
    if n < 0x1_0000_0000 {
      ReadU16Iff(s, at, n / 0x1_0000);
      ReadU16Iff(s, at + 2, n % 0x1_0000);
      assert (s[at..at + 2] + s[at + 2..at + 4])[..2] == s[at..at + 2];
      assert (s[at..at + 2] + s[at + 2..at + 4])[2..] == s[at + 2..at + 4];
      assert U32Bytes(n)[..2] == U16Bytes(n / 0x1_0000) && U32Bytes(n)[2..] == U16Bytes(n % 0x1_0000);
    }
  }

  // Words stand in a message with the high byte first.
  lemma HighByteFirst(s: seq<byte>, at: nat, n: u16, m: nat)
    requires m < 0x1_0000_0000
    ensures U16Bytes(n)[0] as int * 256 + U16Bytes(n)[1] as int == n
    ensures var b := U32Bytes(m);
            ((b[0] as int * 256 + b[1] as int) * 256 + b[2] as int) * 256 + b[3] as int == m
    ensures at + 2 <= |s| ==> ReadU16(s, at) == s[at] as int * 256 + s[at + 1] as int
    ensures at + 4 <= |s| ==>
      ReadU32(s, at) == ((s[at] as int * 256 + s[at + 1] as int) * 256 + s[at + 2] as int) * 256 + s[at + 3] as int
  {
  }

  // ---------- types and classes ----------

  datatype QueryType =
    | A | NS | MF | CNAME | SOA | MB | MG | MR | NULL | WKS | PTR | HINFO | MINFO | MX | TXT
    | AAAA | SRV | AXFR | MAILB | MAILA | All

  function QueryTypeCode(t: QueryType): u16 {
    match t
    case A => 1 case NS => 2 case MF => 4 case CNAME => 5 case SOA => 6 case MB => 7 case MG => 8
    case MR => 9 case NULL => 10 case WKS => 11 case PTR => 12 case HINFO => 13 case MINFO => 14
    case MX => 15 case TXT => 16 case AAAA => 28 case SRV => 33 case AXFR => 252 case MAILB => 253
    case MAILA => 254 case All => 255
  }

  function ParseQueryType(code: u16): Result<QueryType> {
    match code
    case 1 => Ok(A) case 2 => Ok(NS) case 4 => Ok(MF) case 5 => Ok(CNAME) case 6 => Ok(SOA)
    case 7 => Ok(MB) case 8 => Ok(MG) case 9 => Ok(MR) case 10 => Ok(NULL) case 11 => Ok(WKS)
    case 12 => Ok(PTR) case 13 => Ok(HINFO) case 14 => Ok(MINFO) case 15 => Ok(MX) case 16 => Ok(TXT)
    case 28 => Ok(AAAA) case 33 => Ok(SRV) case 252 => Ok(AXFR) case 253 => Ok(MAILB)
    case 254 => Ok(MAILA) case 255 => Ok(All)
    case x => Err(InvalidQueryType(x))
  }

  datatype QueryClass = IN | CS | CH | HS | Any

  function QueryClassCode(c: QueryClass): u16 {
    match c case IN => 1 case CS => 2 case CH => 3 case HS => 4 case Any => 255
  }

  function ParseQueryClass(code: u16): Result<QueryClass> {
    match code
    case 1 => Ok(IN) case 2 => Ok(CS) case 3 => Ok(CH) case 4 => Ok(HS) case 255 => Ok(Any)
    case x => Err(InvalidQueryClass(x))
  }

  datatype Class = ClassIN | ClassCS | ClassCH | ClassHS

  function ParseClass(code: u16): Result<Class> {
    match code
    case 1 => Ok(ClassIN) case 2 => Ok(ClassCS) case 3 => Ok(ClassCH) case 4 => Ok(ClassHS)
    case x => Err(InvalidClass(x))
  }

  // Record types: those whose data is decoded, OPT, and the ones kept as raw bytes.
  datatype Type =
    | TypeA | TypeNS | TypeCNAME | TypeSOA | TypePTR | TypeMX | TypeTXT | TypeAAAA | TypeSRV | TypeOPT
    | TypeMF | TypeMB | TypeMG | TypeMR | TypeNULL | TypeWKS | TypeHINFO | TypeMINFO

  function ParseType(code: u16): Result<Type> {
    match code
    case 1 => Ok(TypeA) case 2 => Ok(TypeNS) case 4 => Ok(TypeMF) case 5 => Ok(TypeCNAME)
    case 6 => Ok(TypeSOA) case 7 => Ok(TypeMB) case 8 => Ok(TypeMG) case 9 => Ok(TypeMR)
    case 10 => Ok(TypeNULL) case 11 => Ok(TypeWKS) case 12 => Ok(TypePTR) case 13 => Ok(TypeHINFO)
    case 14 => Ok(TypeMINFO) case 15 => Ok(TypeMX) case 16 => Ok(TypeTXT) case 28 => Ok(TypeAAAA)
    case 33 => Ok(TypeSRV) case 41 => Ok(TypeOPT)
    case x => Err(InvalidType(x))
  }

  function TypeCode(t: Type): u16 {
    match t
    case TypeA => 1 case TypeNS => 2 case TypeMF => 4 case TypeCNAME => 5 case TypeSOA => 6
    case TypeMB => 7 case TypeMG => 8 case TypeMR => 9 case TypeNULL => 10 case TypeWKS => 11
    case TypePTR => 12 case TypeHINFO => 13 case TypeMINFO => 14 case TypeMX => 15 case TypeTXT => 16
    case TypeAAAA => 28 case TypeSRV => 33 case TypeOPT => 41
  }

  function ClassCode(c: Class): u16 {
    match c case ClassIN => 1 case ClassCS => 2 case ClassCH => 3 case ClassHS => 4
  }

  lemma TypeIff(code: u16, t: Type)
    ensures ParseType(code) == Ok(t) <==> code == TypeCode(t)
  {
  }

  lemma ClassIff(code: u16, c: Class)
    ensures ParseClass(code) == Ok(c) <==> code == ClassCode(c)
  {
  }

  // The codes of sections 3.2.2 to 3.2.5 of RFC 1035, of RFC 2782 and 3596, and of OPT in RFC 6891.
  lemma StandardCodes()
    ensures ParseType(1) == Ok(TypeA) && ParseType(2) == Ok(TypeNS) && ParseType(5) == Ok(TypeCNAME) && ParseType(6) == Ok(TypeSOA)
    ensures ParseType(12) == Ok(TypePTR) && ParseType(15) == Ok(TypeMX) && ParseType(16) == Ok(TypeTXT)
    ensures ParseType(28) == Ok(TypeAAAA) && ParseType(33) == Ok(TypeSRV) && ParseType(41) == Ok(TypeOPT)
    ensures ParseType(4) == Ok(TypeMF) && ParseType(7) == Ok(TypeMB) && ParseType(8) == Ok(TypeMG) && ParseType(9) == Ok(TypeMR)
    ensures ParseType(10) == Ok(TypeNULL) && ParseType(11) == Ok(TypeWKS) && ParseType(13) == Ok(TypeHINFO)
    ensures ParseType(14) == Ok(TypeMINFO)
    ensures ParseClass(1) == Ok(ClassIN) && ParseClass(2) == Ok(ClassCS) && ParseClass(3) == Ok(ClassCH) && ParseClass(4) == Ok(ClassHS)
    ensures ParseQueryClass(255) == Ok(Any) && ParseQueryType(252) == Ok(AXFR) && ParseQueryType(253) == Ok(MAILB)
    ensures ParseQueryType(254) == Ok(MAILA) && ParseQueryType(255) == Ok(All)
  {
  }

  // The type and class that a question may ask for as a record's, if it is one's.
  function RecordType(t: QueryType): Option<Type> {
    match t
    case A => Some(TypeA) case NS => Some(TypeNS) case MF => Some(TypeMF) case CNAME => Some(TypeCNAME) case SOA => Some(TypeSOA)
    case MB => Some(TypeMB) case MG => Some(TypeMG) case MR => Some(TypeMR) case NULL => Some(TypeNULL) case WKS => Some(TypeWKS)
    case PTR => Some(TypePTR) case HINFO => Some(TypeHINFO) case MINFO => Some(TypeMINFO) case MX => Some(TypeMX)
    case TXT => Some(TypeTXT) case AAAA => Some(TypeAAAA) case SRV => Some(TypeSRV)
    case _ => None
  }

  function RecordClass(c: QueryClass): Option<Class> {
    match c
    case IN => Some(ClassIN) case CS => Some(ClassCS) case CH => Some(ClassCH) case HS => Some(ClassHS)
    case Any => None
  }

  // What is asked for by the name of a record type or class is asked for by its code, and OPT cannot be
  // asked for.
  lemma AskedByCode(t: QueryType, c: QueryClass)
    ensures ParseType(QueryTypeCode(t)) == if RecordType(t).Some? then Ok(RecordType(t).value) else Err(InvalidType(QueryTypeCode(t)))
    ensures ParseClass(QueryClassCode(c)) == if RecordClass(c).Some? then Ok(RecordClass(c).value) else Err(InvalidClass(QueryClassCode(c)))
    ensures ParseQueryType(41) == Err(InvalidQueryType(41))
  {
  }

  // A code of nothing is refused, and named in the error.
  lemma UnknownCodes(code: u16)
    ensures ParseType(code) == Err(InvalidType(code)) <==> forall t: Type :: TypeCode(t) != code
    ensures ParseClass(code) == Err(InvalidClass(code)) <==> forall c: Class :: ClassCode(c) != code
    ensures ParseQueryType(code) == Err(InvalidQueryType(code)) <==> forall t: QueryType :: QueryTypeCode(t) != code
    ensures ParseQueryClass(code) == Err(InvalidQueryClass(code)) <==> forall c: QueryClass :: QueryClassCode(c) != code
  {
    hide *;
    UnknownType(code);
    UnknownClasses(code);
    UnknownQueryType(code);
  }

  lemma UnknownType(code: u16)
    ensures ParseType(code) == Err(InvalidType(code)) <==> forall t: Type :: TypeCode(t) != code
  {
    if ParseType(code).Ok? {
      assert TypeCode(ParseType(code).value) == code;
    }
  }

  lemma UnknownQueryType(code: u16)
    ensures ParseQueryType(code) == Err(InvalidQueryType(code)) <==> forall t: QueryType :: QueryTypeCode(t) != code
  {
    if ParseQueryType(code).Ok? {
      assert QueryTypeCode(ParseQueryType(code).value) == code;
    }
  }

  lemma UnknownClasses(code: u16)
    ensures ParseClass(code) == Err(InvalidClass(code)) <==> forall c: Class :: ClassCode(c) != code
    ensures ParseQueryClass(code) == Err(InvalidQueryClass(code)) <==> forall c: QueryClass :: QueryClassCode(c) != code
  {
    if ParseClass(code).Ok? {
      assert ClassCode(ParseClass(code).value) == code;
    }
    if ParseQueryClass(code).Ok? {
      assert QueryClassCode(ParseQueryClass(code).value) == code;
    }
  }

  lemma QueryTypeRoundTrip(t: QueryType, code: u16)
    ensures ParseQueryType(QueryTypeCode(t)) == Ok(t)
    ensures ParseQueryType(code).Ok? ==> QueryTypeCode(ParseQueryType(code).value) == code
  {
  }

  lemma QueryClassRoundTrip(c: QueryClass, code: u16)
    ensures ParseQueryClass(QueryClassCode(c)) == Ok(c)
    ensures ParseQueryClass(code).Ok? ==> QueryClassCode(ParseQueryClass(code).value) == code
  {
  }
}
