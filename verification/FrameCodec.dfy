/**
 * Authenticated frames (src/main/net/frame-codec.ts): byte-level headers and nonces over an idealised AEAD,
 * and what a decoder accepts when the network drops, repeats, reorders or alters frames.
 */
module FrameCodec {
  import opened Bytes

  const FRAME_VERSION: Byte := 1
  const HEADER_BYTES := 10
  const TAG_BYTES := 16
  const MAX_PLAINTEXT_BYTES := 256 * 1024
  const MAX_U64: nat := 0xFFFF_FFFF_FFFF_FFFF

  type U64 = x: int | 0 <= x <= 0xFFFF_FFFF_FFFF_FFFF

  datatype Direction = ClientToServer | ServerToClient

  /** A ciphertext opens only under the key, nonce and associated data it was sealed with; all else is junk. */
  datatype Cipher = Sealed(key: Buffer, nonce: Buffer, aad: Buffer, plaintext: Buffer) | Junk(bytes: Buffer)

  /** The first ten bytes of a frame (fewer when it is that short) and the rest. */
  datatype Frame = Frame(head: Buffer, body: Cipher)

  datatype Error = TooLong | Exhausted | Short | BadVersion | BadDirection | Replay | BadTag

  datatype Outcome = Ok(plaintext: Buffer) | Err(error: Error)

  datatype Keys = Keys(key: Buffer, salt: Buffer, direction: Direction)

  function DirectionByte(d: Direction): Byte { if d == ClientToServer then 1 else 2 }

  function PutU64(v: U64): (b: Buffer)
    ensures |b| == 8
  {
    PutU32(v / 0x1_0000_0000) + PutU32(v % 0x1_0000_0000)
  }

  function GetU64(b: Buffer, at: nat): U64
    requires at + 8 <= |b|
  {
    GetU32(b, at) as int * 0x1_0000_0000 + GetU32(b, at + 4) as int
  }

  function Header(d: Direction, counter: U64): (h: Buffer)
    ensures |h| == HEADER_BYTES
  {
    [FRAME_VERSION, DirectionByte(d)] + PutU64(counter)
  }

  /** The first four salt bytes, then the counter bytes. */
  function Nonce(salt: Buffer, counterBytes: Buffer): Buffer
    requires |salt| >= 4 && |counterBytes| == 8
  {
    salt[..4] + counterBytes
  }

  function BodyLength(c: Cipher): nat {
    match c
    case Sealed(_, _, _, p) => |p| + TAG_BYTES
    case Junk(bytes) => |bytes|
  }

  function OpenBody(key: Buffer, nonce: Buffer, c: Cipher, aad: Buffer): Option<Buffer> {
    if c.Sealed? && c.key == key && c.nonce == nonce && c.aad == aad then Some(c.plaintext) else None
  }

  function SealedFrame(k: Keys, counter: U64, plaintext: Buffer): Frame
    requires |k.salt| >= 4
  {
    var h := Header(k.direction, counter);
    Frame(h, Sealed(k.key, Nonce(k.salt, h[2..]), h, plaintext))
  }

  /** What a decoder whose last accepted counter is `last` makes of a frame. */
  function Decode(k: Keys, last: int, f: Frame): Outcome
    requires |k.salt| >= 4
  {
    if |f.head| < HEADER_BYTES || |f.head| + BodyLength(f.body) < HEADER_BYTES + TAG_BYTES then Err(Short)
    else if f.head[0] != FRAME_VERSION then Err(BadVersion)
    else if f.head[1] != DirectionByte(k.direction) then Err(BadDirection)
    else if GetU64(f.head, 2) <= last then Err(Replay)
    else
      var p := OpenBody(k.key, Nonce(k.salt, f.head[2..HEADER_BYTES]), f.body, f.head[..HEADER_BYTES]);
      if p.None? then Err(BadTag)
      else if |p.value| > MAX_PLAINTEXT_BYTES then Err(TooLong)
      else Ok(p.value)
  }

  /** The counter moves only when a frame is accepted. */
  function Last(k: Keys, last: int, f: Frame): int
    requires |k.salt| >= 4
  {
    if Decode(k, last, f).Ok? then GetU64(f.head, 2) else last
  }

  // ----- the mutable encoder and decoder -----

  class FrameEncoder {
    const keys: Keys
    var counter: nat

    constructor (keys: Keys)
      requires |keys.salt| >= 4
      ensures this.keys == keys && counter == 0
    {
      this.keys := keys;
      counter := 0;
    }

    method Encode(plaintext: Buffer) returns (r: Option<Frame>, error: Option<Error>)
      requires |keys.salt| >= 4
      modifies this
      ensures |plaintext| > MAX_PLAINTEXT_BYTES ==> r == None && error == Some(TooLong)
      ensures |plaintext| <= MAX_PLAINTEXT_BYTES && old(counter) > MAX_U64 ==> r == None && error == Some(Exhausted)
      ensures |plaintext| <= MAX_PLAINTEXT_BYTES && old(counter) <= MAX_U64 ==>
                r == Some(SealedFrame(keys, old(counter), plaintext)) && error == None
      ensures counter == old(counter) + if r.Some? then 1 else 0
    {
      if |plaintext| > MAX_PLAINTEXT_BYTES { return None, Some(TooLong); }
      if counter > MAX_U64 { return None, Some(Exhausted); }
      var h := new Byte[HEADER_BYTES](_ => 0);
      h[0], h[1] := FRAME_VERSION, DirectionByte(keys.direction);
      var digits := PutU64(counter);
      for i := 0 to 8
        invariant counter == old(counter) && h[0] == FRAME_VERSION && h[1] == DirectionByte(keys.direction)
        invariant forall j | 0 <= j < i :: h[2 + j] == digits[j]
      {
        h[2 + i] := digits[i];
      }
      assert h[..] == Header(keys.direction, counter);
      counter := counter + 1;
      return Some(Frame(h[..], Sealed(keys.key, Nonce(keys.salt, h[..][2..]), h[..], plaintext))), None;
    }
  }

  class FrameDecoder {
    const keys: Keys
    var last: int

    constructor (keys: Keys)
      requires |keys.salt| >= 4
      ensures this.keys == keys && last == -1
    {
      this.keys := keys;
      last := -1;
    }

    method DecodeFrame(f: Frame) returns (r: Outcome)
      requires |keys.salt| >= 4
      modifies this
      ensures r == Decode(keys, old(last), f) && last == Last(keys, old(last), f)
    {
      if |f.head| < HEADER_BYTES || |f.head| + BodyLength(f.body) < HEADER_BYTES + TAG_BYTES { return Err(Short); }
      if f.head[0] != FRAME_VERSION { return Err(BadVersion); }
      if f.head[1] != DirectionByte(keys.direction) { return Err(BadDirection); }
      var counter := GetU64(f.head, 2);
      if counter <= last { return Err(Replay); }
      var p := OpenBody(keys.key, Nonce(keys.salt, f.head[2..HEADER_BYTES]), f.body, f.head[..HEADER_BYTES]);
      if p.None? { return Err(BadTag); }
      if |p.value| > MAX_PLAINTEXT_BYTES { return Err(TooLong); }
      last := counter;
      return Ok(p.value);
    }
  }

  // ----- headers and nonces -----

  lemma U64RoundTrip(v: U64, pre: Buffer)
    ensures GetU64(pre + PutU64(v), |pre|) == v
  {
    var hi, lo := PutU32(v / 0x1_0000_0000), PutU32(v % 0x1_0000_0000);
    U32RoundTrip(v / 0x1_0000_0000, pre, lo);
    U32RoundTrip(v % 0x1_0000_0000, pre + hi, []);
    assert pre + PutU64(v) == pre + hi + lo == pre + hi + lo + [];
    assert (v as int) / 0x1_0000_0000 * 0x1_0000_0000 + (v as int) % 0x1_0000_0000 == v;
  }

  lemma HeaderRoundTrip(d: Direction, counter: U64)
    ensures GetU64(Header(d, counter), 2) == counter
  {
    U64RoundTrip(counter, [FRAME_VERSION, DirectionByte(d)]);
  }

  /** Eight bytes, most significant first. */
  predicate IsU64(b: Buffer, at: nat, v: int)
    requires at + 8 <= |b|
  {
    v == b[at] as int * 0x100_0000_0000_0000 + b[at + 1] as int * 0x1_0000_0000_0000 + b[at + 2] as int * 0x100_0000_0000
         + b[at + 3] as int * 0x1_0000_0000 + b[at + 4] as int * 0x100_0000 + b[at + 5] as int * 0x1_0000
         + b[at + 6] as int * 0x100 + b[at + 7] as int
  }

  /** A frame is version, direction and counter, then the plaintext sealed under all ten and a nonce of salt and counter. */
  lemma FrameLayout(k: Keys, counter: U64, plaintext: Buffer)
    requires |k.salt| >= 4
    ensures var f := SealedFrame(k, counter, plaintext);
            && |f.head| == 10 && f.head[0] == 1 && f.head[1] == (if k.direction == ClientToServer then 1 else 2)
            && IsU64(f.head, 2, counter)
            && f.body == Sealed(k.key, k.salt[..4] + f.head[2..], f.head, plaintext)
  {
    HeaderRoundTrip(k.direction, counter);
  }

  /** What is refused, and why, the first reason counting; and what the rest is read as. */
  lemma RefusedExactlyWhen(k: Keys, last: int, f: Frame)
    requires |k.salt| >= 4 && |f.head| <= 10
    ensures var r := Decode(k, last, f);
            var length := |f.head| + match f.body case Sealed(_, _, _, p) => |p| + 16 case Junk(b) => |b|;
            if |f.head| < 10 || length < 26 then r == Err(Short)
            else if f.head[0] != 1 then r == Err(BadVersion)
            else if f.head[1] != (if k.direction == ClientToServer then 1 else 2) then r == Err(BadDirection)
            else if forall c | IsU64(f.head, 2, c) :: c <= last then r == Err(Replay)
            else if !f.body.Sealed? || f.body != Sealed(k.key, k.salt[..4] + f.head[2..], f.head, f.body.plaintext) then r == Err(BadTag)
            else if |f.body.plaintext| > 262_144 then r == Err(TooLong)
            else r == Ok(f.body.plaintext)
  {
    if |f.head| == 10 {
      assert IsU64(f.head, 2, GetU64(f.head, 2));
      assert forall c | IsU64(f.head, 2, c) :: c == GetU64(f.head, 2);
      assert f.head[2..10] == f.head[2..] && f.head[..10] == f.head;
    }
  }

  /** A frame sealed for one direction is never taken as one for the other, even under one key and salt. */
  lemma ReflectionIsRefused(k: Keys, back: Direction, last: int, counter: U64, plaintext: Buffer)
    requires |k.salt| >= 4 && back != k.direction
    ensures Decode(k, last, SealedFrame(k.(direction := back), counter, plaintext)) == Err(BadDirection)
  {
  }

  /** The frames an encoder makes of a list of plaintexts. */
  function Sent(k: Keys, ps: seq<Buffer>): seq<Frame>
    requires |k.salt| >= 4 && |ps| <= MAX_U64 + 1
  {
    seq(|ps|, i requires 0 <= i < |ps| => SealedFrame(k, i, ps[i]))
  }

  /** One encoder never uses a nonce twice, for as many frames as its counter lasts. */
  lemma NoncesAreDistinct(k: Keys, ps: seq<Buffer>, i: nat, j: nat)
    requires |k.salt| >= 4 && |ps| <= MAX_U64 + 1 && i < j < |ps|
    ensures Sent(k, ps)[i].body.nonce != Sent(k, ps)[j].body.nonce
  {
    var a, b := Header(k.direction, i), Header(k.direction, j);
    HeaderRoundTrip(k.direction, i);
    HeaderRoundTrip(k.direction, j);
    var m, n := Nonce(k.salt, a[2..]), Nonce(k.salt, b[2..]);
    assert m[4..] == a[2..] && n[4..] == b[2..];
    assert a == [a[0], a[1]] + a[2..] && b == [b[0], b[1]] + b[2..];
  }

  // ----- a hostile network -----

  /** The network can replay and splice what it has seen, under any header, but not seal anything itself. */
  ghost predicate CannotForge(k: Keys, ps: seq<Buffer>, f: Frame)
    requires |k.salt| >= 4 && |ps| <= MAX_U64 + 1
  {
    f.body.Sealed? && f.body.key == k.key ==> exists i | 0 <= i < |ps| :: f.body == Sent(k, ps)[i].body
  }

  ghost predicate Sendable(ps: seq<Buffer>) {
    |ps| <= MAX_U64 + 1 && forall i | 0 <= i < |ps| :: |ps[i]| <= MAX_PLAINTEXT_BYTES
  }

  ghost predicate WellShaped(f: Frame) { |f.head| <= HEADER_BYTES }

  lemma SentDecodes(k: Keys, ps: seq<Buffer>, last: int, c: nat)
    requires |k.salt| >= 4 && Sendable(ps) && c < |ps|
    ensures GetU64(Sent(k, ps)[c].head, 2) == c
    ensures Decode(k, last, Sent(k, ps)[c]) == if c > last then Ok(ps[c]) else Err(Replay)
  {
    HeaderRoundTrip(k.direction, c);
    var h := Header(k.direction, c);
    assert h[2..HEADER_BYTES] == h[2..] && h[..HEADER_BYTES] == h;
  }

  /** A frame is accepted exactly when it is one that was sent, whole, and newer than all accepted before. */
  lemma AcceptedExactlyWhen(k: Keys, ps: seq<Buffer>, last: int, f: Frame)
    requires |k.salt| >= 4 && Sendable(ps) && CannotForge(k, ps, f) && WellShaped(f)
    ensures Decode(k, last, f).Ok? <==> exists c | 0 <= c < |ps| :: c > last && f == Sent(k, ps)[c]
    ensures Decode(k, last, f).Ok? ==> var c := GetU64(f.head, 2); last < c < |ps| && Decode(k, last, f) == Ok(ps[c])
  {
    if Decode(k, last, f).Ok? {
      var c :| 0 <= c < |ps| && f.body == Sent(k, ps)[c].body;
      assert f.head[..HEADER_BYTES] == f.head;
      assert f == Sent(k, ps)[c];
      SentDecodes(k, ps, last, c);
    } else if c :| 0 <= c < |ps| && c > last && f == Sent(k, ps)[c] {
      SentDecodes(k, ps, last, c);
    }
  }

  /** The counters of the frames accepted from a list of deliveries. */
  function Accepted(k: Keys, last: int, fs: seq<Frame>): seq<nat>
    requires |k.salt| >= 4
    decreases |fs|
  {
    if fs == [] then []
    else if Decode(k, last, fs[0]).Ok? then [GetU64(fs[0].head, 2)] + Accepted(k, Last(k, last, fs[0]), fs[1..])
    else Accepted(k, last, fs[1..])
  }

  function Plaintexts(k: Keys, last: int, fs: seq<Frame>): seq<Buffer>
    requires |k.salt| >= 4
    decreases |fs|
  {
    if fs == [] then []
    else if Decode(k, last, fs[0]).Ok? then [Decode(k, last, fs[0]).plaintext] + Plaintexts(k, Last(k, last, fs[0]), fs[1..])
    else Plaintexts(k, last, fs[1..])
  }

  ghost predicate Increasing(s: seq<nat>, above: int) {
    && (forall i, j | 0 <= i < j < |s| :: s[i] < s[j])
    && (forall i | 0 <= i < |s| :: above < s[i])
  }

  /**
   * Whatever the network does with the frames, the accepted plaintexts are a subsequence of those sent:
   * each at most once, and in the order they were sent.
   */
  lemma {:induction false} AcceptedIsSubsequence(k: Keys, ps: seq<Buffer>, last: int, fs: seq<Frame>)
    requires |k.salt| >= 4 && Sendable(ps) && last >= -1
    requires forall f | f in fs :: CannotForge(k, ps, f) && WellShaped(f)
    ensures var cs := Accepted(k, last, fs);
            && Increasing(cs, last) && (forall i | 0 <= i < |cs| :: cs[i] < |ps|)
            && |Plaintexts(k, last, fs)| == |cs| && forall i | 0 <= i < |cs| :: Plaintexts(k, last, fs)[i] == ps[cs[i]]
    decreases |fs|
  {
    hide Decode, CannotForge, Sendable;
    if fs != [] {
      AcceptedExactlyWhen(k, ps, last, fs[0]);
      AcceptedIsSubsequence(k, ps, Last(k, last, fs[0]), fs[1..]);
      var rest := Accepted(k, Last(k, last, fs[0]), fs[1..]);
      assert Accepted(k, last, fs) == if Decode(k, last, fs[0]).Ok? then [GetU64(fs[0].head, 2)] + rest else rest;
    }
  }

  /** Any frames in the order they were sent, however many are missing between them, are all accepted. */
  lemma {:induction false} InOrderIsAccepted(k: Keys, ps: seq<Buffer>, last: int, cs: seq<nat>, fs: seq<Frame>)
    requires |k.salt| >= 4 && Sendable(ps) && Increasing(cs, last) && |fs| == |cs|
    requires forall i | 0 <= i < |cs| :: cs[i] < |ps| && fs[i] == Sent(k, ps)[cs[i]]
    ensures Accepted(k, last, fs) == cs
    decreases |fs|
  {
    if fs != [] {
      SentDecodes(k, ps, last, cs[0]);
      InOrderIsAccepted(k, ps, cs[0], cs[1..], fs[1..]);
    }
  }

  /** Delivered whole and in order, everything sent is received. */
  lemma WholeInOrder(k: Keys, ps: seq<Buffer>)
    requires |k.salt| >= 4 && Sendable(ps)
    ensures Plaintexts(k, -1, Sent(k, ps)) == ps
  {
    var cs := seq(|ps|, i requires 0 <= i < |ps| => i);
    InOrderIsAccepted(k, ps, -1, cs, Sent(k, ps));
    forall f | f in Sent(k, ps) ensures CannotForge(k, ps, f) && WellShaped(f) {
    }
    AcceptedIsSubsequence(k, ps, -1, Sent(k, ps));
  }

  // ----- the connection around a decoder, which a rejection ends -----

  /** No delivery is rejected. */
  predicate AllAccepted(k: Keys, last: int, fs: seq<Frame>)
    requires |k.salt| >= 4
    decreases |fs|
  {
    fs == [] || (Decode(k, last, fs[0]).Ok? && AllAccepted(k, Last(k, last, fs[0]), fs[1..]))
  }

  /** The deliveries are sent frames, each later than the one before. */
  ghost predicate Forward(k: Keys, ps: seq<Buffer>, last: int, fs: seq<Frame>, cs: seq<nat>)
    requires |k.salt| >= 4 && |ps| <= MAX_U64 + 1
  {
    |cs| == |fs| && Increasing(cs, last) && forall i | 0 <= i < |cs| :: cs[i] < |ps| && fs[i] == Sent(k, ps)[cs[i]]
  }

  lemma {:induction false} ForwardIsAccepted(k: Keys, ps: seq<Buffer>, last: int, fs: seq<Frame>, cs: seq<nat>)
    requires |k.salt| >= 4 && Sendable(ps) && Forward(k, ps, last, fs, cs)
    ensures AllAccepted(k, last, fs)
    decreases |fs|
  {
    hide Decode, Sendable;
    if fs != [] {
      SentDecodes(k, ps, last, cs[0]);
      ForwardIsAccepted(k, ps, cs[0], fs[1..], cs[1..]);
    }
  }

  lemma ForwardCons(k: Keys, ps: seq<Buffer>, last: int, fs: seq<Frame>, c: nat, cs: seq<nat>)
    requires |k.salt| >= 4 && |ps| <= MAX_U64 + 1 && fs != [] && last < c < |ps| && fs[0] == Sent(k, ps)[c]
    requires Forward(k, ps, c, fs[1..], cs)
    ensures Forward(k, ps, last, fs, [c] + cs)
  {
    assert |Sent(k, ps)| == |ps|;
    hide Sent;
    forall i | 0 < i < |fs| ensures ([c] + cs)[i] < |ps| && fs[i] == Sent(k, ps)[([c] + cs)[i]] {
      assert ([c] + cs)[i] == cs[i - 1] && fs[i] == fs[1..][i - 1];
    }
  }

  lemma {:induction false} AcceptedIsForward(k: Keys, ps: seq<Buffer>, last: int, fs: seq<Frame>) returns (cs: seq<nat>)
    requires |k.salt| >= 4 && Sendable(ps) && AllAccepted(k, last, fs)
    requires forall f | f in fs :: CannotForge(k, ps, f) && WellShaped(f)
    ensures Forward(k, ps, last, fs, cs)
    decreases |fs|
  {
    assert |ps| <= MAX_U64 + 1;
    hide Decode, Sendable, CannotForge, WellShaped, Sent;
    if fs == [] { return []; }
    AcceptedExactlyWhen(k, ps, last, fs[0]);
    var c :| 0 <= c < |ps| && c > last && fs[0] == Sent(k, ps)[c];
    SentDecodes(k, ps, last, c);
    var rest := AcceptedIsForward(k, ps, c, fs[1..]);
    ForwardCons(k, ps, last, fs, c, rest);
    cs := [c] + rest;
  }

  /**
   * A connection closes at the first rejection. It outlives a list of deliveries exactly when they are frames
   * that were sent, in the order they were sent: anything repeated, reordered, altered or made up ends it.
   */
  lemma SurvivesExactlyWhen(k: Keys, ps: seq<Buffer>, fs: seq<Frame>)
    requires |k.salt| >= 4 && Sendable(ps) && forall f | f in fs :: CannotForge(k, ps, f) && WellShaped(f)
    ensures AllAccepted(k, -1, fs) <==> exists cs :: Forward(k, ps, -1, fs, cs)
  {
    if AllAccepted(k, -1, fs) {
      var cs := AcceptedIsForward(k, ps, -1, fs);
    }
    if cs :| Forward(k, ps, -1, fs, cs) {
      ForwardIsAccepted(k, ps, -1, fs, cs);
    }
  }

  /** A gap is not an error: with the first frame lost, the second is accepted all the same. */
  lemma GapsAreAccepted(k: Keys, a: Buffer, b: Buffer)
    requires |k.salt| >= 4 && Sendable([a, b])
    ensures Accepted(k, -1, [Sent(k, [a, b])[1]]) == [1]
  {
    InOrderIsAccepted(k, [a, b], -1, [1], [Sent(k, [a, b])[1]]);
  }
}
