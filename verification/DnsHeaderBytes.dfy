// Where each field of a header stands in its twelve bytes, in numbers.
module DnsHeaderBytes {
  import opened Bits
  import opened DnsTypes
  import opened DnsHeader

  function Bit(b: bool, value: nat): nat {
    if b then value else 0
  }

  ghost predicate OpcodeIs(op: Opcode, n: nat) {
    && (op.StandardQuery? <==> n == 0) && (op.InverseQuery? <==> n == 1) && (op.ServerStatusRequest? <==> n == 2)
    && (op.ReservedOpcode? ==> op.code as int == n)
  }

  ghost predicate ResponseCodeIs(rc: ResponseCode, n: nat) {
    && (rc.NoError? <==> n == 0) && (rc.FormatError? <==> n == 1) && (rc.ServerFailure? <==> n == 2)
    && (rc.NameError? <==> n == 3) && (rc.NotImplemented? <==> n == 4) && (rc.Refused? <==> n == 5)
    && (rc.ReservedCode? ==> rc.code as int == n)
  }

  // The flag word, in bits of its two bytes.
  ghost predicate FlagsAre(f: Flags, hi: byte, lo: byte) {
    && (f.query <==> hi < 128) && OpcodeIs(f.opcode, hi / 8 % 16)
    && (f.authoritative <==> hi / 4 % 2 == 1) && (f.truncated <==> hi / 2 % 2 == 1) && (f.recursionDesired <==> hi % 2 == 1)
    && (f.recursionAvailable <==> lo >= 128) && (f.authenticatedData <==> lo / 32 % 2 == 1)
    && (f.checkingDisabled <==> lo / 16 % 2 == 1) && ResponseCodeIs(f.responseCode, lo % 16)
  }

  ghost predicate Stands(h: Header, data: seq<byte>) {
    && |data| >= 12 && h.id == data[0] as int * 256 + data[1] as int && FlagsAre(h.flags, data[2], data[3])
    && h.questions == data[4] as int * 256 + data[5] as int && h.answers == data[6] as int * 256 + data[7] as int
    && h.nameservers == data[8] as int * 256 + data[9] as int && h.additional == data[10] as int * 256 + data[11] as int
  }

  // The error of parsing tells its cause, and what is parsed is what stands there.
  lemma ParsedHeader(data: seq<byte>)
    ensures Parse(data) == Err(HeaderTooShort) <==> |data| < 12
    ensures Parse(data) == Err(ReservedBitsAreNonZero) <==> |data| >= 12 && data[3] / 64 % 2 == 1
    ensures Parse(data).Ok? <==> |data| >= 12 && data[3] / 64 % 2 == 0
    ensures Parse(data).Ok? ==> Stands(Parse(data).value, data)
  {
    if |data| >= 12 {
      FlagBitsOf(data[2], data[3]);
    }
    hide Unpack;
  }

  // What is written of a header that can be read back stands there.
  lemma WrittenHeader(h: Header)
    requires Canonical(h.flags) && !h.flags.authenticatedData && !h.flags.checkingDisabled
    ensures Stands(h, Bytes(h))
  {
    ParseUndoesWriteIff(h, []);
    assert Bytes(h) + [] == Bytes(h);
    ParsedHeader(Bytes(h));
  }

  lemma FlagBitsOf(hi: byte, lo: byte)
    ensures var w := (hi as int * 256 + lo as int) as bv16;
            && (w & RESERVED_MASK != 0 <==> lo / 64 % 2 == 1) && FlagsAre(Unpack(w), hi, lo)
  {
    var n: u16 := hi as int * 256 + lo as int;
    hide *;
    FlagsOfWord(n);
    InBytes(Unpack(n as bv16), hi, lo);
    LowByte(hi, lo);
  }

  lemma InBytes(f: Flags, hi: byte, lo: byte)
    requires WordFlags(f, hi as int * 256 + lo as int)
    ensures FlagsAre(f, hi, lo)
  {
    HighByte(hi, lo);
    LowByte(hi, lo);
    hide OpcodeIs, ResponseCodeIs;
  }

  // The same, in bits of the word.
  ghost predicate WordFlags(f: Flags, n: u16) {
    && (f.query <==> n / 0x8000 % 2 == 0) && OpcodeIs(f.opcode, n / 0x0800 % 16)
    && (f.authoritative <==> n / 0x0400 % 2 == 1) && (f.truncated <==> n / 0x0200 % 2 == 1)
    && (f.recursionDesired <==> n / 0x0100 % 2 == 1) && (f.recursionAvailable <==> n / 0x80 % 2 == 1)
    && (f.authenticatedData <==> n / 0x20 % 2 == 1) && (f.checkingDisabled <==> n / 0x10 % 2 == 1)
    && ResponseCodeIs(f.responseCode, n % 16)
  }

  lemma FlagsOfWord(n: u16)
    ensures var w := n as bv16; (w & RESERVED_MASK != 0 <==> n / 0x40 % 2 == 1) && WordFlags(Unpack(w), n)
  {
    HighBits(n);
    LowBits(n);
    OpcodeNumber(n);
    ResponseNumber(n);
    hide OpcodeOf, ResponseCodeOf, OpcodeIs, ResponseCodeIs;
  }

  // ---------- single bits ----------

  lemma HighBits(n: u16)
    ensures var w := n as bv16;
            && (w & QUERY == 0 <==> n / 0x8000 % 2 == 0) && (w & AUTHORITATIVE != 0 <==> n / 0x0400 % 2 == 1)
            && (w & TRUNCATED != 0 <==> n / 0x0200 % 2 == 1) && (w & RECURSION_DESIRED != 0 <==> n / 0x0100 % 2 == 1)
  {
  }

  lemma LowBits(n: u16)
    ensures var w := n as bv16;
            && (w & RECURSION_AVAILABLE != 0 <==> n / 0x80 % 2 == 1) && (w & RESERVED_MASK != 0 <==> n / 0x40 % 2 == 1)
            && (w & AUTHENTICATED_DATA != 0 <==> n / 0x20 % 2 == 1) && (w & CHECKING_DISABLED != 0 <==> n / 0x10 % 2 == 1)
  {
  }

  lemma HighByte(hi: int, lo: int)
    requires 0 <= hi < 256 && 0 <= lo < 256
    ensures var n := hi * 256 + lo;
            n / 0x0400 == hi / 4 && n / 0x0200 == hi / 2 && n / 0x0100 == hi && n / 0x8000 == hi / 128 && n / 0x0800 == hi / 8
  {
  }

  lemma LowByte(hi: int, lo: int)
    requires 0 <= hi < 256 && 0 <= lo < 256
    ensures var n := hi * 256 + lo;
            && n / 0x80 % 2 == lo / 128 && n / 0x40 % 2 == lo / 64 % 2 && n / 0x20 % 2 == lo / 32 % 2
            && n / 0x10 % 2 == lo / 16 % 2 && n % 16 == lo % 16
  {
    var n := hi * 256 + lo;
    LowQuotients(hi, lo);
    EvenAdded(hi, lo / 128);
    EvenAdded(2 * hi, lo / 64);
    EvenAdded(4 * hi, lo / 32);
    EvenAdded(8 * hi, lo / 16);
  }

  lemma LowQuotients(hi: int, lo: int)
    requires 0 <= hi < 256 && 0 <= lo < 256
    ensures var n := hi * 256 + lo;
            && n / 0x80 == 2 * hi + lo / 128 && n / 0x40 == 4 * hi + lo / 64
            && n / 0x20 == 8 * hi + lo / 32 && n / 0x10 == 16 * hi + lo / 16 && n % 16 == lo % 16
  {
  }

  lemma EvenAdded(a: int, b: int)
    ensures (2 * a + b) % 2 == b % 2
  {
  }

  // ---------- the four bits of a code ----------

  function Nibble(b0: bool, b1: bool, b2: bool, b3: bool): nat {
    Bit(b0, 1) + Bit(b1, 2) + Bit(b2, 4) + Bit(b3, 8)
  }

  lemma NibbleOf(k: nat)
    ensures k % 16 == Nibble(k % 2 == 1, k / 2 % 2 == 1, k / 4 % 2 == 1, k / 8 % 2 == 1)
  {
    HalfRemainder(k, 8);
    HalfRemainder(k / 2, 4);
    HalfRemainder(k / 4, 2);
    assert k / 2 / 2 == k / 4 && k / 4 / 2 == k / 8;
  }

  lemma NibbleOfWord(c: bv16)
    requires c <= 15
    ensures c as int == Nibble(c & 1 != 0, c & 2 != 0, c & 4 != 0, c & 8 != 0)
  {
  }

  lemma NibbleOfByte(c: bv8)
    requires c <= 15
    ensures c as int == Nibble(c & 1 != 0, c & 2 != 0, c & 4 != 0, c & 8 != 0)
  {
  }

  lemma OpcodeBitsOf(n: u16)
    ensures var c := ((n as bv16) & OPCODE_MASK) >> 11;
            && c <= 15 && (c & 1 != 0 <==> n / 0x0800 % 2 == 1) && (c & 2 != 0 <==> n / 0x1000 % 2 == 1)
            && (c & 4 != 0 <==> n / 0x2000 % 2 == 1) && (c & 8 != 0 <==> n / 0x4000 % 2 == 1)
  {
  }

  lemma ResponseBitsOf(n: u16)
    ensures var c := ((n as bv16) & RESPONSE_CODE_MASK) as bv8;
            && c <= 15 && (c & 1 != 0 <==> n % 2 == 1) && (c & 2 != 0 <==> n / 2 % 2 == 1)
            && (c & 4 != 0 <==> n / 4 % 2 == 1) && (c & 8 != 0 <==> n / 8 % 2 == 1)
  {
  }

  lemma OpcodeOfNumber(c: bv16)
    ensures OpcodeIs(OpcodeOf(c), c as int)
  {
  }

  lemma ResponseOfNumber(c: bv8)
    requires c <= 15
    ensures ResponseCodeIs(ResponseCodeOf(c), c as int)
  {
  }

  lemma OpcodeNumber(n: u16)
    ensures OpcodeIs(OpcodeOf(((n as bv16) & OPCODE_MASK) >> 11), n / 0x0800 % 16)
  {
    hide *;
    var c := ((n as bv16) & OPCODE_MASK) >> 11;
    OpcodeBitsOf(n);
    NibbleOfWord(c);
    OpcodeOfNumber(c);
    FourBits(n);
  }

  lemma FourBits(n: u16)
    ensures n / 0x0800 % 16 ==
            Nibble(n / 0x0800 % 2 == 1, n / 0x1000 % 2 == 1, n / 0x2000 % 2 == 1, n / 0x4000 % 2 == 1)
  {
    var q := n / 0x0800;
    NibbleOf(q);
    assert n / 0x1000 == q / 2 && n / 0x2000 == q / 4 && n / 0x4000 == q / 8;
  }

  lemma ResponseNumber(n: u16)
    ensures ((n as bv16) & RESPONSE_CODE_MASK) as bv8 <= 15
    ensures ResponseCodeIs(ResponseCodeOf(((n as bv16) & RESPONSE_CODE_MASK) as bv8), n % 16)
  {
    var c := ((n as bv16) & RESPONSE_CODE_MASK) as bv8;
    hide *;
    ResponseBitsOf(n);
    NibbleOfByte(c);
    ResponseOfNumber(c);
    NibbleOf(n);
  }
}
