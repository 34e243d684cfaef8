/** The STUN codec (src/main/net/stun.ts), for section 14 of RFC 8489's attributes. */
module Stun {
  import opened Bytes
  import opened Arithmetic

  const MAGIC_COOKIE: U32 := 0x2112_A442
  const BINDING_REQUEST: U16 := 0x0001
  const BINDING_SUCCESS: U16 := 0x0101
  const ATTR_MAPPED_ADDRESS: U16 := 0x0001
  const ATTR_XOR_MAPPED_ADDRESS: U16 := 0x0020
  const HEADER: nat := 20

  datatype Family = IPv4 | IPv6

  datatype Address = Address(family: Family, bytes: Buffer, port: U16)

  datatype Error = Short | WrongType | BadCookie | WrongTransaction | Malformed | UnknownFamily | NoAddress

  datatype Outcome = Ok(address: Address) | Err(error: Error)

  /** Bitwise exclusive or of the low n bits. */
  function Xor(a: nat, b: nat, n: nat): (r: nat)
    decreases n
  {
    if n == 0 then 0 else (a % 2 + b % 2) % 2 + 2 * Xor(a / 2, b / 2, n - 1)
  }

  lemma {:induction false} XorIsBounded(a: nat, b: nat, n: nat)
    ensures Xor(a, b, n) < Pow2(n)
    decreases n
  {
    if n > 0 { XorIsBounded(a / 2, b / 2, n - 1); }
  }

  lemma BitTwice(x: nat, y: nat, r: nat)
    requires x < 2 && y < 2
    ensures var bit := (x + y) % 2; (bit + 2 * r) % 2 == bit && (bit + 2 * r) / 2 == r && (bit + y) % 2 == x
  {
  }

  /** Masking twice is not masking. */
  lemma {:induction false} XorTwice(a: nat, b: nat, n: nat)
    requires a < Pow2(n)
    ensures Xor(Xor(a, b, n), b, n) == a
    decreases n
  {
    if n > 0 {
      var r := Xor(a / 2, b / 2, n - 1);
      XorTwice(a / 2, b / 2, n - 1);
      BitTwice(a % 2, b % 2, r);
      XorStep((a % 2 + b % 2) % 2 + 2 * r, b, n);
    }
  }

  lemma XorStep(a: nat, b: nat, n: nat)
    requires n > 0
    ensures Xor(a, b, n) == (a % 2 + b % 2) % 2 + 2 * Xor(a / 2, b / 2, n - 1)
  {
  }

  // ----- what exclusive or means, bit by bit -----

  /** Bit k of a number, the lowest being bit 0. */
  predicate Bit(x: nat, k: nat) { (x / Pow2(k)) % 2 == 1 }

  /** Each of the low n bits of r says whether a and b differ there. */
  ghost predicate BitsDiffer(r: nat, a: nat, b: nat, n: nat) {
    r < Pow2(n) && forall k: nat | k < n :: Bit(r, k) <==> (Bit(a, k) != Bit(b, k))
  }

  lemma NextBit(x: nat, k: nat)
    requires k > 0
    ensures Bit(x, k) == Bit(x / 2, k - 1) && (Bit(x, 0) <==> x % 2 == 1)
  {
    DivTwice(x, Pow2(k - 1));
  }

  lemma DivTwice(x: nat, p: nat)
    requires p > 0
    ensures x / (2 * p) == (x / 2) / p
  {
    var q, r := (x / 2) / p, (x / 2) % p;
    assert x == 2 * p * q + (2 * r + x % 2) by { assert x / 2 == p * q + r; }
    assert 2 * r + x % 2 < 2 * p;
    Quotient(2 * p, q, 2 * r + x % 2, x);
  }

  lemma {:induction false} XorBits(a: nat, b: nat, n: nat)
    ensures BitsDiffer(Xor(a, b, n), a, b, n)
    decreases n
  {
    XorIsBounded(a, b, n);
    if n > 0 {
      var x := Xor(a, b, n);
      XorBits(a / 2, b / 2, n - 1);
      BitTwice(a % 2, b % 2, Xor(a / 2, b / 2, n - 1));
      forall k: nat | k < n ensures Bit(x, k) <==> (Bit(a, k) != Bit(b, k)) {
        if k > 0 { NextBit(x, k); NextBit(a, k); NextBit(b, k); } else { NextBit(x, 1); NextBit(a, 1); NextBit(b, 1); }
      }
    }
  }

  lemma HalvesDiffer(r: nat, a: nat, b: nat, n: nat)
    requires n > 0 && BitsDiffer(r, a, b, n)
    ensures BitsDiffer(r / 2, a / 2, b / 2, n - 1)
    ensures r % 2 == (a % 2 + b % 2) % 2
  {
    hide Bit;
    NextBit(r, 1);
    NextBit(a, 1);
    NextBit(b, 1);
    assert Bit(r, 0) <==> (Bit(a, 0) != Bit(b, 0));
    forall k: nat | k < n - 1 ensures Bit(r / 2, k) <==> (Bit(a / 2, k) != Bit(b / 2, k)) {
      NextBit(r, k + 1);
      NextBit(a, k + 1);
      NextBit(b, k + 1);
    }
  }

  /** The bits leave no choice: a number below 2^n that differs from a exactly where b has a one is their exclusive or. */
  lemma {:induction false} BitsDecide(r: nat, a: nat, b: nat, n: nat)
    requires BitsDiffer(r, a, b, n)
    ensures r == Xor(a, b, n)
    decreases n
  {
    if n > 0 {
      HalvesDiffer(r, a, b, n);
      hide BitsDiffer;
      BitsDecide(r / 2, a / 2, b / 2, n - 1);
    }
  }

  function XorByte(a: Byte, b: Byte): Byte {
    XorIsBounded(a, b, 8);
    assert Pow2(8) == 256;
    Xor(a, b, 8)
  }

  function XorPort(a: U16, b: U16): U16 {
    XorIsBounded(a, b, 16);
    assert Pow2(16) == 0x1_0000 by { assert Pow2(8) == 256; assert Pow2(16) == 256 * Pow2(8); }
    Xor(a, b, 16)
  }

  /** The mask of section 14.2: the cookie, and for a 16-byte address the transaction id after it. */
  function Mask(length: nat, transactionId: Buffer): Buffer
    requires length >= 4 && |transactionId| == 12
    ensures |Mask(length, transactionId)| == length
  {
    if length == 16 then PutU32(MAGIC_COOKIE) + transactionId else PutU32(MAGIC_COOKIE) + seq(length - 4, i => 0)
  }

  function XorBytes(a: Buffer, mask: Buffer): (r: Buffer)
    requires |a| == |mask|
    ensures |r| == |a|
  {
    seq(|a|, i requires 0 <= i < |a| => XorByte(a[i], mask[i]))
  }

  function ParseAddress(value: Buffer, transactionId: Buffer, xored: bool): Outcome
    requires |transactionId| == 12
  {
    if |value| < 4 || (xored && |value| < 8) then Err(Malformed)
    else
      var port := if xored then XorPort(GetU16(value, 2), MAGIC_COOKIE / 0x1_0000) else GetU16(value, 2);
      var bytes := if xored then XorBytes(value[4..], Mask(|value| - 4, transactionId)) else value[4..];
      if value[1] == 1 && |bytes| == 4 then Ok(Address(IPv4, bytes, port))
      else if value[1] == 2 && |bytes| == 16 then Ok(Address(IPv6, bytes, port))
      else Err(UnknownFamily)
  }

  function Padding(length: nat): (n: nat)
    ensures n < 4
  {
    (4 - length % 4) % 4
  }

  /** The attribute walk from an offset, with what a plain MAPPED-ADDRESS has given so far. */
  function Walk(b: Buffer, id: Buffer, offset: nat, end: nat, mapped: Option<Address>): Outcome
    requires |id| == 12 && end <= |b|
    decreases |b| + 4 - offset
  {
    if offset + 4 > end then (if mapped.Some? then Ok(mapped.value) else Err(NoAddress))
    else
      var kind, length := GetU16(b, offset), GetU16(b, offset + 2);
      var valueEnd := offset + 4 + length;
      if valueEnd > |b| then (if mapped.Some? then Ok(mapped.value) else Err(NoAddress))
      else
        var value := b[offset + 4..valueEnd];
        var next := valueEnd + Padding(length);
        if kind == ATTR_XOR_MAPPED_ADDRESS then ParseAddress(value, id, true)
        else if kind == ATTR_MAPPED_ADDRESS && mapped.None? then
          var parsed := ParseAddress(value, id, false);
          if parsed.Err? then parsed else Walk(b, id, next, end, Some(parsed.address))
        else Walk(b, id, next, end, mapped)
  }

  function HeaderError(b: Buffer, id: Buffer): Option<Error>
    requires |id| == 12
  {
    if |b| < HEADER then Some(Short)
    else if GetU16(b, 0) != BINDING_SUCCESS then Some(WrongType)
    else if GetU32(b, 4) != MAGIC_COOKIE then Some(BadCookie)
    else if b[8..20] != id then Some(WrongTransaction)
    else None
  }

  function Decode(b: Buffer, id: Buffer): Outcome
    requires |id| == 12
  {
    var e := HeaderError(b, id);
    if e.Some? then Err(e.value)
    else
      var declared := HEADER + GetU16(b, 2);
      Walk(b, id, HEADER, if declared < |b| then declared else |b|, None)
  }

  // ----- the walk and the writers as the source runs them -----

  method DecodeMappedAddress(b: Buffer, id: Buffer) returns (r: Outcome)
    requires |id| == 12
    ensures r == Decode(b, id)
  {
    hide ParseAddress, GetU16, GetU32;
    if |b| < HEADER { return Err(Short); }
    if GetU16(b, 0) != BINDING_SUCCESS { return Err(WrongType); }
    if GetU32(b, 4) != MAGIC_COOKIE { return Err(BadCookie); }
    if b[8..20] != id { return Err(WrongTransaction); }
    var declared := HEADER + GetU16(b, 2);
    var end := if declared < |b| then declared else |b|;
    var offset := HEADER;
    var mapped: Option<Address> := None;
    while offset + 4 <= end
      invariant Walk(b, id, offset, end, mapped) == Decode(b, id)
      decreases |b| + 4 - offset
    {
      var kind, length := GetU16(b, offset), GetU16(b, offset + 2);
      var valueEnd := offset + 4 + length;
      if valueEnd > |b| { break; }
      var value := b[offset + 4..valueEnd];
      if kind == ATTR_XOR_MAPPED_ADDRESS {
        return ParseAddress(value, id, true);
      }
      if kind == ATTR_MAPPED_ADDRESS && mapped.None? {
        var parsed := ParseAddress(value, id, false);
        if parsed.Err? { return parsed; }
        mapped := Some(parsed.address);
      }
      offset := valueEnd + Padding(length);
    }
    assert Walk(b, id, offset, end, mapped) == if mapped.Some? then Ok(mapped.value) else Err(NoAddress);
    if mapped.Some? { return Ok(mapped.value); }
    return Err(NoAddress);
  }

  method XorInPlace(bytes: array<Byte>, mask: Buffer)
    requires bytes.Length == |mask|
    modifies bytes
    ensures bytes[..] == XorBytes(old(bytes[..]), mask)
  {
    for i := 0 to bytes.Length
      invariant forall j | 0 <= j < i :: bytes[j] == XorByte(old(bytes[j]), mask[j])
      invariant forall j | i <= j < bytes.Length :: bytes[j] == old(bytes[j])
    {
      bytes[i] := XorByte(bytes[i], mask[i]);
    }
  }

  method EncodeBindingRequest(id: Buffer) returns (msg: Option<Buffer>)
    ensures msg.None? <==> |id| != 12
    ensures msg.Some? ==> msg.value == [0x00, 0x01, 0x00, 0x00, 0x21, 0x12, 0xA4, 0x42] + id
  {
    if |id| != 12 { return None; }
    return Some(PutU16(BINDING_REQUEST) + PutU16(0) + PutU32(MAGIC_COOKIE) + id);
  }

  // ----- what an address attribute says -----

  /** The bytes a masked address is masked with, by section 14.2 of RFC 8489. */
  function MaskAt(id: Buffer, i: nat): Byte
    requires |id| == 12 && i < 16
  {
    if i < 4 then [0x21, 0x12, 0xA4, 0x42][i] else id[i - 4]
  }

  /** The family byte and the length of the address that goes with it. */
  predicate Shaped(value: Buffer, a: Address) {
    && |value| == 4 + |a.bytes|
    && (if a.family == IPv4 then value[1] == 1 && |a.bytes| == 4 else value[1] == 2 && |a.bytes| == 16)
  }

  /** The value, masked, stands for this address: every bit is flipped exactly where the mask has a one. */
  ghost predicate SaysMasked(value: Buffer, id: Buffer, a: Address)
    requires |id| == 12
  {
    && Shaped(value, a)
    && BitsDiffer(a.port, value[2] as int * 0x100 + value[3] as int, 0x2112, 16)
    && forall i | 0 <= i < |a.bytes| :: BitsDiffer(a.bytes[i], value[4 + i], MaskAt(id, i), 8)
  }

  predicate SaysPlainly(value: Buffer, a: Address) {
    Shaped(value, a) && a.port == value[2] as int * 0x100 + value[3] as int && a.bytes == value[4..]
  }

  lemma MaskIs(id: Buffer, length: nat, i: nat)
    requires |id| == 12 && (length == 4 || length == 16) && i < length
    ensures Mask(length, id)[i] == MaskAt(id, i)
  {
  }

  lemma ByteBits(r: Byte, a: Byte, b: Byte)
    ensures r == XorByte(a, b) <==> BitsDiffer(r, a, b, 8)
  {
    hide Xor, BitsDiffer;
    XorBits(a, b, 8);
    if BitsDiffer(r, a, b, 8) { BitsDecide(r, a, b, 8); }
  }

  lemma PortBits(r: U16, a: U16)
    ensures r == XorPort(a, 0x2112) <==> BitsDiffer(r, a, 0x2112, 16)
  {
    hide Xor, BitsDiffer;
    XorBits(a, 0x2112, 16);
    if BitsDiffer(r, a, 0x2112, 16) { BitsDecide(r, a, 0x2112, 16); }
  }

  /** A masked address is read as the one address whose bits the value says, and as an error when there is none. */
  lemma MaskedMeans(value: Buffer, id: Buffer, a: Address)
    requires |id| == 12
    ensures ParseAddress(value, id, true) == Ok(a) <==> SaysMasked(value, id, a)
  {
    hide BitsDiffer, XorByte, XorPort, Mask;
    if Shaped(value, a) {
      var masked := value[4..];
      PortBits(a.port, GetU16(value, 2));
      assert forall k | 0 <= k < |masked| :: masked[k] == value[4 + k];
      var read := XorBytes(masked, Mask(|masked|, id));
      forall k | 0 <= k < |masked| ensures a.bytes[k] == read[k] <==> BitsDiffer(a.bytes[k], value[4 + k], MaskAt(id, k), 8) {
        MaskIs(id, |masked|, k);
        ByteBits(a.bytes[k], masked[k], MaskAt(id, k));
      }
    }
  }

  lemma PlainMeans(value: Buffer, id: Buffer, a: Address)
    requires |id| == 12
    ensures ParseAddress(value, id, false) == Ok(a) <==> SaysPlainly(value, a)
    ensures forall xored :: ParseAddress(value, id, xored) == Err(Malformed) <==> |value| < if xored then 8 else 4
  {
  }

  /** Every address can be sent, masked, with any first byte. */
  lemma EveryAddressCanBeMasked(a: Address, id: Buffer, reserved: Byte) returns (value: Buffer)
    requires |id| == 12 && |a.bytes| == if a.family == IPv4 then 4 else 16
    ensures SaysMasked(value, id, a) && value[0] == reserved
  {
    hide BitsDiffer, Xor, XorBytes, Mask, XorPort;
    var port := XorPort(a.port, 0x2112);
    var masked := XorBytes(a.bytes, Mask(|a.bytes|, id));
    value := [reserved, if a.family == IPv4 then 1 else 2, port / 0x100, port % 0x100] + masked;
    assert value[4..] == masked;
    assert value[2] as int * 0x100 + value[3] as int == port;
    XorPortTwice(a.port, 0x2112);
    PortBits(a.port, port);
    MaskedBytes(a, id, masked);
    assert forall i | 0 <= i < |masked| :: value[4 + i] == masked[i];
  }

  lemma MaskedBytes(a: Address, id: Buffer, masked: Buffer)
    requires |id| == 12 && |a.bytes| == (if a.family == IPv4 then 4 else 16) && masked == XorBytes(a.bytes, Mask(|a.bytes|, id))
    ensures forall i | 0 <= i < |a.bytes| :: BitsDiffer(a.bytes[i], masked[i], MaskAt(id, i), 8)
  {
    hide BitsDiffer, XorByte, Mask;
    XorBytesTwice(a.bytes, Mask(|a.bytes|, id));
    forall i | 0 <= i < |a.bytes| ensures BitsDiffer(a.bytes[i], masked[i], MaskAt(id, i), 8) {
      MaskIs(id, |a.bytes|, i);
      assert XorBytes(masked, Mask(|a.bytes|, id))[i] == a.bytes[i];
      ByteBits(a.bytes[i], masked[i], MaskAt(id, i));
    }
  }

  // ----- well-formed responses -----

  datatype Attr =
    | Mapped(address: Address, value: Buffer, padding: Buffer)
    | XorMapped(address: Address, value: Buffer, padding: Buffer)
    | Other(kind: U16, value: Buffer, padding: Buffer)

  /** Attribute types of sections 14.1 and 14.2. */
  function AttrKind(a: Attr): U16 {
    match a
    case Mapped(_, _, _) => 0x0001
    case XorMapped(_, _, _) => 0x0020
    case Other(kind, _, _) => kind
  }

  /** The value says what it should, and fewer than four bytes pad it to a multiple of four. */
  ghost predicate ValidAttr(a: Attr, id: Buffer)
    requires |id| == 12
  {
    && |a.value| < 0x1_0000 && |a.padding| < 4 && (|a.value| + |a.padding|) % 4 == 0
    && match a
       case Mapped(addr, value, _) => SaysPlainly(value, addr)
       case XorMapped(addr, value, _) => SaysMasked(value, id, addr)
       case Other(kind, _, _) => kind != 0x0001 && kind != 0x0020
  }

  function EncodeAttr(a: Attr): (b: Buffer)
    requires |a.value| < 0x1_0000
  {
    [AttrKind(a) / 0x100, AttrKind(a) % 0x100, |a.value| / 0x100, |a.value| % 0x100] + a.value + a.padding
  }

  ghost predicate AllValid(attrs: seq<Attr>, id: Buffer)
    requires |id| == 12
  {
    forall a | a in attrs :: ValidAttr(a, id)
  }

  ghost function EncodeAttrs(attrs: seq<Attr>, id: Buffer): Buffer
    requires |id| == 12 && AllValid(attrs, id)
  {
    if attrs == [] then []
    else
      assert ValidAttr(attrs[0], id);
      EncodeAttr(attrs[0]) + EncodeAttrs(attrs[1..], id)
  }

  /** A success response's header, which declares `declared` bytes of attributes, and what comes after it. */
  function Response(declared: U16, id: Buffer, rest: Buffer): Buffer {
    [0x01, 0x01, declared / 0x100, declared % 0x100, 0x21, 0x12, 0xA4, 0x42] + id + rest
  }

  /** Nothing more is read: less than an attribute header is declared or there, or an attribute longer than what is there. */
  predicate NoMore(tail: Buffer, declared: nat) {
    declared < 4 || |tail| < 4 || 4 + tail[2] as int * 0x100 + tail[3] as int > |tail|
  }

  function FirstXorMapped(attrs: seq<Attr>): Option<Address> {
    if attrs == [] then None else if attrs[0].XorMapped? then Some(attrs[0].address) else FirstXorMapped(attrs[1..])
  }

  function FirstMapped(attrs: seq<Attr>): Option<Address> {
    if attrs == [] then None else if attrs[0].Mapped? then Some(attrs[0].address) else FirstMapped(attrs[1..])
  }

  /** What the client should learn: the first XOR-MAPPED-ADDRESS, else the first MAPPED-ADDRESS. */
  function Answer(attrs: seq<Attr>, mapped: Option<Address>): Outcome {
    if FirstXorMapped(attrs).Some? then Ok(FirstXorMapped(attrs).value)
    else if mapped.Some? then Ok(mapped.value)
    else if FirstMapped(attrs).Some? then Ok(FirstMapped(attrs).value)
    else Err(NoAddress)
  }

  lemma XorBytesTwice(a: Buffer, mask: Buffer)
    requires |a| == |mask|
    ensures XorBytes(XorBytes(a, mask), mask) == a
  {
    forall i | 0 <= i < |a| ensures XorBytes(XorBytes(a, mask), mask)[i] == a[i] {
      assert Pow2(8) == 256;
      XorTwice(a[i], mask[i], 8);
    }
  }

  lemma XorPortTwice(a: U16, b: U16)
    ensures XorPort(XorPort(a, b), b) == a
  {
    assert Pow2(16) == 0x1_0000 by { assert Pow2(8) == 256; assert Pow2(16) == 256 * Pow2(8); }
    XorTwice(a, b, 16);
  }

  /** Where the parts of one attribute lie in a longer message. */
  lemma AttrAt(b: Buffer, pre: Buffer, a: Attr, post: Buffer)
    requires |a.value| < 0x1_0000 && b == pre + EncodeAttr(a) + post
    ensures |b| == |pre| + 4 + |a.value| + |a.padding| + |post|
    ensures GetU16(b, |pre|) == AttrKind(a) && GetU16(b, |pre| + 2) == |a.value|
    ensures b[|pre| + 4..|pre| + 4 + |a.value|] == a.value
  {
    var e := EncodeAttr(a);
    assert forall i | 0 <= i < |e| :: b[|pre| + i] == e[i];
    assert b[|pre|] == e[0] && b[|pre| + 1] == e[1] && b[|pre| + 2] == e[2] && b[|pre| + 3] == e[3];
  }

  lemma PaddingFills(length: nat, n: nat)
    requires n < 4 && (length + n) % 4 == 0
    ensures Padding(length) == n
  {
  }

  /** One step of the walk, over a well-formed attribute. */
  lemma WalkStep(b: Buffer, id: Buffer, offset: nat, a: Attr, end: nat, mapped: Option<Address>)
    requires |id| == 12 && ValidAttr(a, id) && offset + |EncodeAttr(a)| <= end <= |b|
    requires b[offset..offset + |EncodeAttr(a)|] == EncodeAttr(a)
    ensures Walk(b, id, offset, end, mapped)
            == if a.XorMapped? then Ok(a.address)
               else Walk(b, id, offset + |EncodeAttr(a)|, end, if a.Mapped? && mapped.None? then Some(a.address) else mapped)
  {
    hide ParseAddress, GetU16, SaysMasked, SaysPlainly, Padding;
    var next := offset + |EncodeAttr(a)|;
    assert b == b[..offset] + b[offset..next] + b[next..];
    AttrAt(b, b[..offset], a, b[next..]);
    PaddingFills(|a.value|, |a.padding|);
    if a.XorMapped? { MaskedMeans(a.value, id, a.address); }
    if a.Mapped? { PlainMeans(a.value, id, a.address); }
    hide EncodeAttr;
  }

  lemma {:induction false} WalkAnswers(b: Buffer, id: Buffer, offset: nat, attrs: seq<Attr>, to: nat, end: nat, mapped: Option<Address>)
    requires |id| == 12 && AllValid(attrs, id) && offset <= to <= end <= |b| && b[offset..to] == EncodeAttrs(attrs, id)
    requires NoMore(b[to..], end - to)
    ensures Walk(b, id, offset, end, mapped) == Answer(attrs, mapped)
    decreases |attrs|
  {
    hide ParseAddress, EncodeAttr, GetU16, Walk, ValidAttr, Answer, AllValid, EncodeAttrs, NoMore;
    if attrs == [] {
      EncodeNone(id);
      WalkEnds(b, id, offset, end, mapped);
      AnswerOfNone(mapped);
    } else {
      var a, rest := attrs[0], attrs[1..];
      AnswerOfOne(attrs, mapped);
      ValidParts(attrs, id);
      EncodeOne(attrs, id);
      Halves(b, offset, EncodeAttr(a), EncodeAttrs(rest, id), to);
      WalkStep(b, id, offset, a, end, mapped);
      WalkAnswers(b, id, offset + |EncodeAttr(a)|, rest, to, end, if a.Mapped? && mapped.None? then Some(a.address) else mapped);
    }
  }

  lemma Halves(b: Buffer, offset: nat, head: Buffer, tail: Buffer, end: nat)
    requires offset <= end <= |b| && b[offset..end] == head + tail
    ensures offset + |head| + |tail| == end
    ensures b[offset..offset + |head|] == head && b[offset + |head|..end] == tail
  {
    assert b[offset..end][..|head|] == head && b[offset..end][|head|..] == tail;
  }

  lemma EncodeNone(id: Buffer)
    requires |id| == 12 && AllValid([], id)
    ensures EncodeAttrs([], id) == []
  {
  }

  lemma EncodeOne(attrs: seq<Attr>, id: Buffer)
    requires |id| == 12 && attrs != [] && AllValid(attrs, id) && ValidAttr(attrs[0], id) && AllValid(attrs[1..], id)
    ensures EncodeAttrs(attrs, id) == EncodeAttr(attrs[0]) + EncodeAttrs(attrs[1..], id)
  {
  }

  lemma ValidParts(attrs: seq<Attr>, id: Buffer)
    requires |id| == 12 && AllValid(attrs, id) && attrs != []
    ensures ValidAttr(attrs[0], id) && |attrs[0].value| < 0x1_0000 && AllValid(attrs[1..], id)
  {
    hide SaysMasked, SaysPlainly;
  }

  lemma AnswerOfNone(mapped: Option<Address>)
    ensures Answer([], mapped) == if mapped.Some? then Ok(mapped.value) else Err(NoAddress)
  {
  }

  lemma AnswerOfOne(attrs: seq<Attr>, mapped: Option<Address>)
    requires attrs != []
    ensures var a := attrs[0];
            Answer(attrs, mapped)
            == if a.XorMapped? then Ok(a.address)
               else Answer(attrs[1..], if a.Mapped? && mapped.None? then Some(a.address) else mapped)
  {
  }

  lemma WalkEnds(b: Buffer, id: Buffer, offset: nat, end: nat, mapped: Option<Address>)
    requires |id| == 12 && offset <= end <= |b| && NoMore(b[offset..], end - offset)
    ensures Walk(b, id, offset, end, mapped) == if mapped.Some? then Ok(mapped.value) else Err(NoAddress)
  {
    var tail := b[offset..];
    assert |tail| >= 4 ==> tail[2] == b[offset + 2] && tail[3] == b[offset + 3];
  }

  lemma HeaderParts(declared: U16, id: Buffer, rest: Buffer)
    requires |id| == 12
    ensures var b := Response(declared, id, rest);
            && |b| == 20 + |rest| && HeaderError(b, id).None? && GetU16(b, 2) == declared && b[20..] == rest
  {
    var b := Response(declared, id, rest);
    assert b[8..20] == id;
  }

  /**
   * A response is read right whatever other attributes it has, whatever bytes follow them, and wherever it is cut
   * short: the attributes that are whole decide.
   */
  lemma DecodeInvertsEncode(attrs: seq<Attr>, id: Buffer, declared: U16, tail: Buffer)
    requires |id| == 12 && AllValid(attrs, id) && |EncodeAttrs(attrs, id)| <= declared
    requires NoMore(tail, declared - |EncodeAttrs(attrs, id)|)
    ensures Decode(Response(declared, id, EncodeAttrs(attrs, id) + tail), id) == Answer(attrs, None)
  {
    hide EncodeAttrs, Walk, GetU16, GetU32, Answer, AllValid, HeaderError, Response, NoMore;
    var body := EncodeAttrs(attrs, id);
    var b := Response(declared, id, body + tail);
    HeaderParts(declared, id, body + tail);
    assert b[20..20 + |body|] == b[20..][..|body|] == body;
    assert b[20 + |body|..] == b[20..][|body|..] == tail;
    var end := if 20 + declared < |b| then 20 + declared else |b|;
    NothingCutOff(tail, declared - |body|, end - 20 - |body|);
    WalkAnswers(b, id, 20, attrs, 20 + |body|, end, None);
  }

  lemma NothingCutOff(tail: Buffer, declared: nat, there: nat)
    requires NoMore(tail, declared) && there == if declared < |tail| then declared else |tail|
    ensures NoMore(tail, there)
  {
  }

  /** What is no success response to this request is an error, and which one, by its bytes. */
  lemma RejectedExactlyWhen(b: Buffer, id: Buffer)
    requires |id| == 12
    ensures Decode(b, id) == Err(Short) <==> |b| < 20
    ensures Decode(b, id) == Err(WrongType) <==> |b| >= 20 && b[..2] != [0x01, 0x01]
    ensures Decode(b, id) == Err(BadCookie) <==> |b| >= 20 && b[..2] == [0x01, 0x01] && b[4..8] != [0x21, 0x12, 0xA4, 0x42]
    ensures Decode(b, id) == Err(WrongTransaction)
            <==> |b| >= 20 && b[..2] == [0x01, 0x01] && b[4..8] == [0x21, 0x12, 0xA4, 0x42] && b[8..20] != id
  {
    if |b| >= 20 {
      var declared := HEADER + GetU16(b, 2);
      WalkErrors(b, id, HEADER, if declared < |b| then declared else |b|, None);
      hide Walk;
      Quad(b);
    }
  }

  lemma Quad(b: Buffer)
    requires |b| >= 20
    ensures GetU16(b, 0) == 0x0101 <==> b[..2] == [0x01, 0x01]
    ensures GetU32(b, 4) == MAGIC_COOKIE <==> b[4..8] == [0x21, 0x12, 0xA4, 0x42]
  {
    assert b[..2] == [b[0], b[1]] && b[4..8] == [b[4], b[5], b[6], b[7]];
  }

  lemma {:induction false} WalkErrors(b: Buffer, id: Buffer, offset: nat, end: nat, mapped: Option<Address>)
    requires |id| == 12 && end <= |b|
    ensures var r := Walk(b, id, offset, end, mapped); r.Err? ==> r.error in {Malformed, UnknownFamily, NoAddress}
    decreases |b| + 4 - offset
  {
    hide GetU16, Padding;
    if offset + 4 <= end {
      var kind, length := GetU16(b, offset), GetU16(b, offset + 2);
      var valueEnd := offset + 4 + length;
      if valueEnd <= |b| && kind != ATTR_XOR_MAPPED_ADDRESS {
        var next := valueEnd + Padding(length);
        if kind == ATTR_MAPPED_ADDRESS && mapped.None? {
          var parsed := ParseAddress(b[offset + 4..valueEnd], id, false);
          if parsed.Ok? { WalkErrors(b, id, next, end, Some(parsed.address)); }
        } else {
          WalkErrors(b, id, next, end, mapped);
        }
      }
    }
  }

  /** After attributes without an answer, an address attribute that says no address is the end: an error. */
  lemma BadAddressFails(attrs: seq<Attr>, id: Buffer, bad: Attr, declared: U16, tail: Buffer)
    requires |id| == 12 && AllValid(attrs, id) && FirstXorMapped(attrs).None? && |bad.value| < 0x1_0000
    requires |EncodeAttrs(attrs, id)| + |EncodeAttr(bad)| <= declared
    requires bad.XorMapped? || (bad.Mapped? && FirstMapped(attrs).None?)
    requires forall a :: if bad.XorMapped? then !SaysMasked(bad.value, id, a) else !SaysPlainly(bad.value, a)
    ensures Decode(Response(declared, id, EncodeAttrs(attrs, id) + EncodeAttr(bad) + tail), id).Err?
  {
    hide EncodeAttrs, GetU16, GetU32, Answer, AllValid, HeaderError, Response, EncodeAttr, Walk;
    var body, e := EncodeAttrs(attrs, id), EncodeAttr(bad);
    var rest := body + e + tail;
    var b := Response(declared, id, rest);
    HeaderParts(declared, id, rest);
    assert b[20..20 + |body|] == b[20..][..|body|] == body;
    assert b[20 + |body|..20 + |body| + |e|] == b[20..][|body|..|body| + |e|] == e;
    var end := if 20 + declared < |b| then 20 + declared else |b|;
    WalkPasses(b, id, 20, attrs, 20 + |body|, end, None);
    BadStep(b, id, 20 + |body|, bad, end, FirstMapped(attrs));
  }

  lemma {:induction false} WalkPasses(b: Buffer, id: Buffer, offset: nat, attrs: seq<Attr>, to: nat, end: nat, mapped: Option<Address>)
    requires |id| == 12 && AllValid(attrs, id) && offset <= to <= end <= |b| && b[offset..to] == EncodeAttrs(attrs, id)
    requires FirstXorMapped(attrs).None?
    ensures Walk(b, id, offset, end, mapped) == Walk(b, id, to, end, if mapped.Some? then mapped else FirstMapped(attrs))
    decreases |attrs|
  {
    hide ParseAddress, EncodeAttr, GetU16, Walk, ValidAttr, AllValid, EncodeAttrs;
    if attrs == [] {
      EncodeNone(id);
    } else {
      var a, rest := attrs[0], attrs[1..];
      ValidParts(attrs, id);
      EncodeOne(attrs, id);
      Halves(b, offset, EncodeAttr(a), EncodeAttrs(rest, id), to);
      WalkStep(b, id, offset, a, end, mapped);
      WalkPasses(b, id, offset + |EncodeAttr(a)|, rest, to, end, if a.Mapped? && mapped.None? then Some(a.address) else mapped);
    }
  }

  lemma BadStep(b: Buffer, id: Buffer, offset: nat, bad: Attr, end: nat, mapped: Option<Address>)
    requires |id| == 12 && |bad.value| < 0x1_0000 && offset + |EncodeAttr(bad)| <= end <= |b|
    requires b[offset..offset + |EncodeAttr(bad)|] == EncodeAttr(bad)
    requires bad.XorMapped? || (bad.Mapped? && mapped.None?)
    requires forall a :: if bad.XorMapped? then !SaysMasked(bad.value, id, a) else !SaysPlainly(bad.value, a)
    ensures Walk(b, id, offset, end, mapped).Err?
  {
    hide ParseAddress, GetU16, SaysMasked, SaysPlainly;
    var next := offset + |EncodeAttr(bad)|;
    assert b == b[..offset] + b[offset..next] + b[next..];
    AttrAt(b, b[..offset], bad, b[next..]);
    var read := ParseAddress(bad.value, id, bad.XorMapped?);
    if read.Ok? {
      MaskedMeans(bad.value, id, read.address);
      PlainMeans(bad.value, id, read.address);
    }
    hide EncodeAttr;
  }
}
