/**
 * The relay's half of the wire format (server/src/wire.ts). The frames whose body is JSON
 * stay abstract: only the frames that are byte strings are modelled byte by byte.
 */
module RelayWire {
  import opened Bytes

  const KICK: Byte := 0x07
  const HANDOFF: Byte := 0x08
  const DATA_H: Byte := 0x10
  const DATA_P: Byte := 0x11
  const PING: Byte := 0x20

  /** One application frame: what a Transport carries in either direction. */
  datatype Payload = Payload(isBinary: bool, bytes: Buffer)
  datatype Tagged = Tagged(connId: nat, payload: Payload)

  function Flag(isBinary: bool): Byte { if isBinary then 1 else 0 }

  function DecodeDataFromHost(buf: Buffer): Option<Tagged> {
    if |buf| < 6 || buf[0] != DATA_H then None
    else Some(Tagged(GetU32(buf, 1), Payload(buf[5] == 1, buf[6..])))
  }

  function DecodeDataFromPeer(buf: Buffer): Option<Payload> {
    if |buf| < 2 || buf[0] != DATA_P then None
    else Some(Payload(buf[1] == 1, buf[2..]))
  }

  function DecodeKick(buf: Buffer): Option<nat> {
    if |buf| < 5 || buf[0] != KICK then None else Some(GetU32(buf, 1))
  }

  function TypeIs(buf: Buffer, t: Byte): bool { |buf| > 0 && buf[0] == t }

  function DataToPeer(p: Payload): Buffer {
    [DATA_P, Flag(p.isBinary)] + p.bytes
  }

  function DataToHost(connId: U32, p: Payload): Buffer {
    [DATA_H] + PutU32(connId) + [Flag(p.isBinary)] + p.bytes
  }

  /** writeUInt32BE: fills four bytes of a buffer in place. */
  method WriteU32(b: array<Byte>, v: U32, at: nat)
    requires at + 4 <= b.Length
    modifies b
    ensures b[..] == old(b[..at]) + PutU32(v) + old(b[at + 4..])
  {
    b[at] := v / 0x100_0000;
    b[at + 1] := v / 0x1_0000 % 0x100;
    b[at + 2] := v / 0x100 % 0x100;
    b[at + 3] := v % 0x100;
  }

  /** The head buffer of dataToHost, filled in place and then joined to the payload. */
  method BuildDataToHost(connId: U32, p: Payload) returns (frame: Buffer)
    ensures frame == DataToHost(connId, p)
  {
    var head := new Byte[6](_ => 0);
    head[0] := DATA_H;
    WriteU32(head, connId, 1);
    head[5] := Flag(p.isBinary);
    assert head[..] == [DATA_H] + PutU32(connId) + [Flag(p.isBinary)];
    frame := head[..] + p.bytes;
  }
}

/** The clients' half of the same format (src/main/net/relay-wire.ts), kept in sync by hand. */
module ClientWire {
  import opened Bytes
  import opened RelayWire

  datatype Data = Data(connId: Option<nat>, payload: Payload)

  /** decodeRelayFrame, for the two frame types that are not JSON. */
  function DecodeData(buf: Buffer): Option<Data> {
    if TypeIs(buf, DATA_H) then
      if |buf| < 6 then None
      else Some(Data(Some(GetU32(buf, 1)), Payload(buf[5] == 1, buf[6..])))
    else if TypeIs(buf, DATA_P) then
      if |buf| < 2 then None
      else Some(Data(None, Payload(buf[1] == 1, buf[2..])))
    else None
  }

  function EncodeDataP(p: Payload): Buffer {
    [DATA_P, Flag(p.isBinary)] + p.bytes
  }

  function EncodeDataH(connId: U32, p: Payload): Buffer {
    [DATA_H] + PutU32(connId) + [Flag(p.isBinary)] + p.bytes
  }

  function EncodeKick(connId: U32): Buffer {
    [KICK] + PutU32(connId)
  }

  function EncodeHandoff(): Buffer { [HANDOFF] }
  function EncodePing(): Buffer { [PING] }

  method BuildKick(connId: U32) returns (frame: Buffer)
    ensures frame == EncodeKick(connId)
  {
    var b := new Byte[5](_ => 0);
    b[0] := KICK;
    WriteU32(b, connId, 1);
    frame := b[..];
  }

  method BuildDataH(connId: U32, p: Payload) returns (frame: Buffer)
    ensures frame == EncodeDataH(connId, p)
  {
    var head := new Byte[6](_ => 0);
    head[0] := DATA_H;
    WriteU32(head, connId, 1);
    head[5] := Flag(p.isBinary);
    assert head[..] == [DATA_H] + PutU32(connId) + [Flag(p.isBinary)];
    frame := head[..] + p.bytes;
  }

  /** A tagged frame survives a hop: its tag, its flag and its payload come back out. */
  lemma TaggedFrameFields(connId: U32, p: Payload)
    ensures var f := [DATA_H] + PutU32(connId) + [Flag(p.isBinary)] + p.bytes;
            |f| >= 6 && f[0] == DATA_H && GetU32(f, 1) == connId && f[5] == Flag(p.isBinary) && f[6..] == p.bytes
  {
    var f := [DATA_H] + PutU32(connId) + [Flag(p.isBinary)] + p.bytes;
    assert f == [DATA_H] + PutU32(connId) + ([Flag(p.isBinary)] + p.bytes);
    U32RoundTrip(connId, [DATA_H], [Flag(p.isBinary)] + p.bytes);
  }

  /** Peer to host: what the peer encodes, the relay reads, re-tags, and the host's link reads back. */
  lemma PeerToHostHop(connId: U32, p: Payload)
    ensures DecodeDataFromPeer(EncodeDataP(p)) == Some(p)
    ensures DecodeData(DataToHost(connId, p)) == Some(Data(Some(connId), p))
    ensures !TypeIs(EncodeDataP(p), PING)
  {
    TaggedFrameFields(connId, p);
    assert EncodeDataP(p)[2..] == p.bytes;
  }

  /** Host to peer: what the host's link encodes, the relay reads, strips, and the peer's link reads back. */
  lemma HostToPeerHop(connId: U32, p: Payload)
    ensures DecodeDataFromHost(EncodeDataH(connId, p)) == Some(Tagged(connId, p))
    ensures DecodeData(DataToPeer(p)) == Some(Data(None, p))
    ensures DecodeKick(EncodeDataH(connId, p)) == None
    ensures !TypeIs(EncodeDataH(connId, p), PING) && !TypeIs(EncodeDataH(connId, p), HANDOFF)
            && !TypeIs(EncodeDataH(connId, p), KICK)
  {
    TaggedFrameFields(connId, p);
    assert DataToPeer(p)[2..] == p.bytes;
  }

  lemma KickHop(connId: U32)
    ensures DecodeKick(EncodeKick(connId)) == Some(connId)
    ensures DecodeDataFromHost(EncodeKick(connId)) == None
    ensures TypeIs(EncodeKick(connId), KICK)
  {
    assert [KICK] + PutU32(connId) == [KICK] + PutU32(connId) + [];
    U32RoundTrip(connId, [KICK], []);
  }

  /** The two hand-kept halves agree on every byte they both produce, and on what they reject. */
  lemma HalvesAgree(connId: U32, p: Payload, buf: Buffer)
    ensures EncodeDataH(connId, p) == DataToHost(connId, p)
    ensures EncodeDataP(p) == DataToPeer(p)
    ensures DecodeData(buf) == None <==> DecodeDataFromHost(buf) == None && DecodeDataFromPeer(buf) == None
    ensures forall d :: DecodeData(buf) == Some(d) <==>
              (d.connId.Some? && DecodeDataFromHost(buf) == Some(Tagged(d.connId.value, d.payload)))
              || (d.connId.None? && DecodeDataFromPeer(buf) == Some(d.payload))
  {
  }

  /** The four bytes of a connId, most significant first. */
  predicate IsConnId(b: Buffer, at: nat, c: nat)
    requires at + 4 <= |b|
  {
    c == b[at] as int * 0x100_0000 + b[at + 1] as int * 0x1_0000 + b[at + 2] as int * 0x100 + b[at + 3] as int
  }

  /** What each frame looks like on the wire. */
  lemma FramesOnTheWire(connId: U32, p: Payload)
    ensures var f := EncodeDataH(connId, p);
            |f| == 6 + |p.bytes| && f[0] == 0x10 && IsConnId(f, 1, connId) && f[5] == (if p.isBinary then 1 else 0) && f[6..] == p.bytes
    ensures var f := EncodeDataP(p); |f| == 2 + |p.bytes| && f[0] == 0x11 && f[1] == (if p.isBinary then 1 else 0) && f[2..] == p.bytes
    ensures var f := EncodeKick(connId); |f| == 5 && f[0] == 0x07 && IsConnId(f, 1, connId)
    ensures EncodeHandoff() == [0x08] && EncodePing() == [0x20]
  {
    TaggedFrameFields(connId, p);
    U32RoundTrip(connId, [KICK], []);
    assert [KICK] + PutU32(connId) + [] == EncodeKick(connId);
  }

  /** What each end reads off any bytes at all. */
  lemma ReadsExactly(buf: Buffer, c: nat, p: Payload)
    ensures DecodeDataFromHost(buf) == Some(Tagged(c, p))
            <==> |buf| >= 6 && buf[0] == 0x10 && IsConnId(buf, 1, c) && p.isBinary == (buf[5] == 1) && p.bytes == buf[6..]
    ensures DecodeDataFromPeer(buf) == Some(p)
            <==> |buf| >= 2 && buf[0] == 0x11 && p.isBinary == (buf[1] == 1) && p.bytes == buf[2..]
    ensures DecodeKick(buf) == Some(c) <==> |buf| >= 5 && buf[0] == 0x07 && IsConnId(buf, 1, c)
  {
  }
}
