/** The CPace handshake as two communicating step machines (src/main/signaling/handshake.ts). */
module Handshakes {
  import opened Bytes
  import opened Lv
  import opened Cpace

  datatype Msg =
    | Hello(version: nat, roomId: Buffer)
    | HelloAck(version: nat, sid: Buffer, argonParams: nat)
    | PakePeer(ya: Buffer)
    | PakeHost(yb: Buffer, macHost: Mac)
    | PakeConfirm(macPeer: Mac)
    | Reject
    | Closed

  datatype HostConfig = HostConfig(version: nat, roomId: Buffer, w: Buffer, argonParams: nat, sid: Buffer, scalar: nat)

  datatype PeerConfig = PeerConfig(version: nat, roomId: Buffer, deriveW: nat -> Buffer, acceptable: nat -> bool, scalar: nat)

  /** The keys a session derives, by what they protect. */
  datatype TransportKey = TransportKey(isk: Digest, toServer: bool)

  datatype Keys = Keys(send: TransportKey, recv: TransportKey)

  datatype Host = AwaitHello | AwaitPake | AwaitConfirm(isk: Digest, expected: Mac) | HostUp(isk: Digest, keys: Keys) | HostFailed

  datatype Peer = AwaitAck | AwaitHost(sid: Buffer, ya: Buffer) | PeerUp(isk: Digest, keys: Keys) | PeerFailed

  datatype HostReply = HostReply(state: Host, out: seq<Msg>)
  datatype PeerReply = PeerReply(state: Peer, out: seq<Msg>)

  /** The host sends with the server-to-client key, the peer with the other. */
  function HostKeys(isk: Digest): Keys { Keys(TransportKey(isk, false), TransportKey(isk, true)) }
  function PeerKeys(isk: Digest): Keys { Keys(TransportKey(isk, true), TransportKey(isk, false)) }

  function HostShare(g: Group, cfg: HostConfig): nat
    requires g.q > 0
  {
    Multiply(g, Generator(g, cfg.w, cfg.version, cfg.roomId, cfg.sid), cfg.scalar)
  }

  function PeerShare(g: Group, cfg: PeerConfig, w: Buffer, sid: Buffer): nat
    requires g.q > 0
  {
    Multiply(g, Generator(g, w, cfg.version, cfg.roomId, sid), cfg.scalar)
  }

  /** A failing host drops the connection. */
  function HostStep(g: Group, cfg: HostConfig, s: Host, msg: Msg): HostReply
    requires g.q > 0
  {
    match s
    case AwaitHello =>
      if !msg.Hello? then HostReply(HostFailed, [Closed])
      else if msg.version != cfg.version || msg.roomId != cfg.roomId then HostReply(HostFailed, [Reject, Closed])
      else HostReply(AwaitPake, [HelloAck(cfg.version, cfg.sid, cfg.argonParams)])
    case AwaitPake =>
      if !msg.PakePeer? then HostReply(HostFailed, [Closed])
      else
        var share := DecodeShare(g, msg.ya);
        if share.None? then HostReply(HostFailed, [Closed])
        else
          var yb, k := g.enc(HostShare(g, cfg)), Multiply(g, share.value, cfg.scalar);
          if k == 0 then HostReply(HostFailed, [Closed])
          else
            var isk := DeriveIsk(cfg.sid, g.enc(k), msg.ya, yb);
            HostReply(AwaitConfirm(isk, MacFor(isk, PEER_TAG, cfg.sid, msg.ya, yb)),
                      [PakeHost(yb, MacFor(isk, HOST_TAG, cfg.sid, msg.ya, yb))])
    case AwaitConfirm(isk, expected) =>
      if msg == PakeConfirm(expected) then HostReply(HostUp(isk, HostKeys(isk)), []) else HostReply(HostFailed, [Closed])
    case _ => HostReply(s, [])
  }

  /** A peer that cannot confirm the host still answers, so that the host fails too. */
  function PeerStep(g: Group, cfg: PeerConfig, s: Peer, msg: Msg): PeerReply
    requires g.q > 0
  {
    match s
    case AwaitAck =>
      if !msg.HelloAck? || msg.version != cfg.version || !cfg.acceptable(msg.argonParams) || |msg.sid| != SID_BYTES
      then PeerReply(PeerFailed, [])
      else
        var ya := g.enc(PeerShare(g, cfg, cfg.deriveW(msg.argonParams), msg.sid));
        PeerReply(AwaitHost(msg.sid, ya), [PakePeer(ya)])
    case AwaitHost(sid, ya) =>
      if !msg.PakeHost? then PeerReply(PeerFailed, [])
      else
        var share := DecodeShare(g, msg.yb);
        if share.None? || Multiply(g, share.value, cfg.scalar) == 0 then PeerReply(PeerFailed, [Reject])
        else
          var isk := DeriveIsk(sid, g.enc(Multiply(g, share.value, cfg.scalar)), ya, msg.yb);
          var out := [PakeConfirm(MacFor(isk, PEER_TAG, sid, ya, msg.yb))];
          if msg.macHost == MacFor(isk, HOST_TAG, sid, ya, msg.yb) then PeerReply(PeerUp(isk, PeerKeys(isk)), out)
          else PeerReply(PeerFailed, out)
    case _ => PeerReply(s, [])
  }

  // ----- the two machines over an honest network -----

  datatype Net = Net(host: Host, peer: Peer, toHost: seq<Msg>, toPeer: seq<Msg>)

  function Start(p: PeerConfig): Net { Net(AwaitHello, AwaitAck, [Hello(p.version, p.roomId)], []) }

  datatype Delivery = ToHost | ToPeer

  function Deliver(g: Group, h: HostConfig, p: PeerConfig, n: Net, d: Delivery): Net
    requires g.q > 0
  {
    if d == ToHost then
      if n.toHost == [] then n
      else
        var r := HostStep(g, h, n.host, n.toHost[0]);
        Net(r.state, n.peer, n.toHost[1..], n.toPeer + r.out)
    else if n.toPeer == [] then n
    else
      var r := PeerStep(g, p, n.peer, n.toPeer[0]);
      Net(n.host, r.state, n.toHost + r.out, n.toPeer[1..])
  }

  function Run(g: Group, h: HostConfig, p: PeerConfig, n: Net, ds: seq<Delivery>): Net
    requires g.q > 0
    decreases |ds|
  {
    if ds == [] then n else Run(g, h, p, Deliver(g, h, p, n, ds[0]), ds[1..])
  }

  ghost predicate Honest(g: Group, h: HostConfig, p: PeerConfig) {
    Valid(g) && 0 < h.scalar < g.q && 0 < p.scalar < g.q && |h.sid| == SID_BYTES
  }

  function HostGenerator(g: Group, h: HostConfig): nat { Generator(g, h.w, h.version, h.roomId, h.sid) }

  function PeerGenerator(g: Group, h: HostConfig, p: PeerConfig): nat {
    Generator(g, p.deriveW(h.argonParams), p.version, p.roomId, h.sid)
  }

  /** The two sides are talking about the same room, at the same version and an acceptable cost. */
  predicate SameRoom(h: HostConfig, p: PeerConfig) {
    h.version == p.version && h.roomId == p.roomId && p.acceptable(h.argonParams)
  }

  function Ya(g: Group, h: HostConfig, p: PeerConfig): nat
    requires g.q > 0
  {
    Multiply(g, PeerGenerator(g, h, p), p.scalar)
  }

  function Yb(g: Group, h: HostConfig): nat
    requires g.q > 0
  {
    Multiply(g, HostGenerator(g, h), h.scalar)
  }

  function HostIsk(g: Group, h: HostConfig, p: PeerConfig): Digest
    requires g.q > 0
  {
    DeriveIsk(h.sid, g.enc(Multiply(g, Ya(g, h, p), h.scalar)), g.enc(Ya(g, h, p)), g.enc(Yb(g, h)))
  }

  function PeerIsk(g: Group, h: HostConfig, p: PeerConfig): Digest
    requires g.q > 0
  {
    DeriveIsk(h.sid, g.enc(Multiply(g, Yb(g, h), p.scalar)), g.enc(Ya(g, h, p)), g.enc(Yb(g, h)))
  }

  function PeerMac(isk: Digest, g: Group, h: HostConfig, p: PeerConfig): Mac
    requires g.q > 0
  {
    MacFor(isk, PEER_TAG, h.sid, g.enc(Ya(g, h, p)), g.enc(Yb(g, h)))
  }

  function HostMac(isk: Digest, g: Group, h: HostConfig, p: PeerConfig): Mac
    requires g.q > 0
  {
    MacFor(isk, HOST_TAG, h.sid, g.enc(Ya(g, h, p)), g.enc(Yb(g, h)))
  }

  /** Every state the pair can be in: one message travels at a time. */
  ghost predicate Reachable(g: Group, h: HostConfig, p: PeerConfig, n: Net)
    requires g.q > 0
  {
    var ya, yb := g.enc(Ya(g, h, p)), g.enc(Yb(g, h));
    var hi, pi := HostIsk(g, h, p), PeerIsk(g, h, p);
    || n == Start(p)
    || (!SameRoom(h, p) && (n.host.HostFailed? || n.host.AwaitPake?) && (n.peer.AwaitAck? || n.peer.PeerFailed?) && n.toHost == []
        && (n.host.AwaitPake? ==> h.version == p.version && h.roomId == p.roomId
                                  && (n.peer.AwaitAck? ==> n.toPeer == [HelloAck(h.version, h.sid, h.argonParams)])
                                  && (n.peer.PeerFailed? ==> n.toPeer == []))
        && (n.host.HostFailed? ==> n.peer.PeerFailed? || n.toPeer == [Reject, Closed]))
    || (SameRoom(h, p) &&
        (|| n == Net(AwaitPake, AwaitAck, [], [HelloAck(h.version, h.sid, h.argonParams)])
         || n == Net(AwaitPake, AwaitHost(h.sid, ya), [PakePeer(ya)], [])
         || n == Net(AwaitConfirm(hi, PeerMac(hi, g, h, p)), AwaitHost(h.sid, ya), [], [PakeHost(yb, HostMac(hi, g, h, p))])
         || n == Net(AwaitConfirm(hi, PeerMac(hi, g, h, p)), Ends(hi, pi), [PakeConfirm(PeerMac(pi, g, h, p))], [])
         || (n.host == (if hi == pi then HostUp(hi, HostKeys(hi)) else HostFailed) && n.peer == Ends(hi, pi) && n.toHost == []
             && (hi == pi ==> n.toPeer == []))))
  }

  function Ends(hi: Digest, pi: Digest): Peer { if hi == pi then PeerUp(pi, PeerKeys(pi)) else PeerFailed }

  lemma SharesAreGood(g: Group, h: HostConfig, p: PeerConfig)
    requires Honest(g, h, p)
    ensures 0 < Ya(g, h, p) < g.q && 0 < Yb(g, h) < g.q
    ensures DecodeShare(g, g.enc(Ya(g, h, p))) == Some(Ya(g, h, p)) && DecodeShare(g, g.enc(Yb(g, h))) == Some(Yb(g, h))
    ensures 0 < Multiply(g, Ya(g, h, p), h.scalar) < g.q && 0 < Multiply(g, Yb(g, h), p.scalar) < g.q
  {
    NeverIdentity(g, PeerGenerator(g, h, p), p.scalar);
    NeverIdentity(g, HostGenerator(g, h), h.scalar);
    NeverIdentity(g, Ya(g, h, p), h.scalar);
    NeverIdentity(g, Yb(g, h), p.scalar);
  }

  lemma DeliverKeeps(g: Group, h: HostConfig, p: PeerConfig, n: Net, d: Delivery)
    requires Honest(g, h, p) && Reachable(g, h, p, n)
    ensures Reachable(g, h, p, Deliver(g, h, p, n, d))
  {
    SharesAreGood(g, h, p);
    hide Multiply, Generator, DeriveIsk, MacFor, DecodeShare, Valid;
  }

  lemma {:induction false} RunKeeps(g: Group, h: HostConfig, p: PeerConfig, n: Net, ds: seq<Delivery>)
    requires Honest(g, h, p) && Reachable(g, h, p, n)
    ensures Reachable(g, h, p, Run(g, h, p, n, ds))
    decreases |ds|
  {
    if ds != [] {
      DeliverKeeps(g, h, p, n, ds[0]);
      RunKeeps(g, h, p, Deliver(g, h, p, n, ds[0]), ds[1..]);
    }
  }

  // ----- agreement -----

  /** The session key tells every part of the transcript apart. */
  lemma IskIsInjective(sid: Buffer, k: Buffer, ya: Buffer, yb: Buffer, sid': Buffer, k': Buffer, ya': Buffer, yb': Buffer)
    requires DeriveIsk(sid, k, ya, yb) == DeriveIsk(sid', k', ya', yb')
    ensures sid == sid' && k == k' && ya == ya' && yb == yb'
  {
    IskFields(sid, k, ya, yb);
    IskFields(sid', k', ya', yb');
    var a, b := [DSI_ISK, sid, k, ya, [], yb, []], [DSI_ISK, sid', k', ya', [], yb', []];
    LvCatIsInjective(a, b);
    assert a[1] == b[1] && a[2] == b[2] && a[3] == b[3] && a[5] == b[5];
  }

  lemma IskFields(sid: Buffer, k: Buffer, ya: Buffer, yb: Buffer)
    ensures DeriveIsk(sid, k, ya, yb).input == LvCat([DSI_ISK, sid, k, ya, [], yb, []])
  {
    LvCatAppend([DSI_ISK, sid, k], [ya, []]);
    LvCatAppend([DSI_ISK, sid, k] + [ya, []], [yb, []]);
    assert [DSI_ISK, sid, k] + [ya, []] + [yb, []] == [DSI_ISK, sid, k, ya, [], yb, []];
  }

  /** Both sides derive the same session key exactly when their generators agree. */
  lemma SameKeyExactlyWhen(g: Group, h: HostConfig, p: PeerConfig)
    requires Honest(g, h, p)
    ensures HostIsk(g, h, p) == PeerIsk(g, h, p) <==> HostGenerator(g, h) == PeerGenerator(g, h, p)
  {
    var gp, gh := PeerGenerator(g, h, p), HostGenerator(g, h);
    SharesAreGood(g, h, p);
    SharedPointsAgreeExactlyWhen(g, gp, gh, p.scalar, h.scalar);
    var kh, kp := Multiply(g, Ya(g, h, p), h.scalar), Multiply(g, Yb(g, h), p.scalar);
    if HostIsk(g, h, p) == PeerIsk(g, h, p) {
      IskIsInjective(h.sid, g.enc(kh), g.enc(Ya(g, h, p)), g.enc(Yb(g, h)),
                     h.sid, g.enc(kp), g.enc(Ya(g, h, p)), g.enc(Yb(g, h)));
      assert g.dec(g.enc(kh)) == Some(kh) && g.dec(g.enc(kp)) == Some(kp);
    }
  }

  /**
   * However deliveries interleave: neither side comes up unless the room, version and cost are agreed and the
   * generators are the same, and then, once nothing is in flight, both are up with one key and each sends
   * with what the other receives.
   */
  lemma Agreement(g: Group, h: HostConfig, p: PeerConfig, ds: seq<Delivery>)
    requires Honest(g, h, p)
    ensures var n := Run(g, h, p, Start(p), ds);
            && (n.host.HostUp? || n.peer.PeerUp? ==> SameRoom(h, p) && HostGenerator(g, h) == PeerGenerator(g, h, p))
            && (n.host.HostUp? && n.peer.PeerUp? ==>
                  n.host.isk == n.peer.isk && n.host.keys.send == n.peer.keys.recv && n.host.keys.recv == n.peer.keys.send
                  && n.host.keys.send != n.host.keys.recv)
            && (n.host.HostUp? ==> n.peer.PeerUp?)
            && (n.toHost == [] && n.toPeer == [] && SameRoom(h, p) && HostGenerator(g, h) == PeerGenerator(g, h, p) ==>
                  n.host.HostUp? && n.peer.PeerUp?)
  {
    RunKeeps(g, h, p, Start(p), ds);
    SameKeyExactlyWhen(g, h, p);
  }

  // ----- and it completes -----

  /** The five messages of a handshake, by whom they go to. */
  const MESSAGES: seq<Delivery> := [ToHost, ToPeer, ToHost, ToPeer, ToHost]

  /** How many of the five have been delivered, from the kth on: a delivery with nothing to deliver does nothing. */
  function Done(ds: seq<Delivery>, k: nat): nat
    decreases |ds|
  {
    if ds == [] then k else Done(ds[1..], if k < 5 && ds[0] == MESSAGES[k] then k + 1 else k)
  }

  /** The pair after k messages, in one room. */
  function Stage(g: Group, h: HostConfig, p: PeerConfig, k: nat): Net
    requires g.q > 0
  {
    var ya, yb := g.enc(Ya(g, h, p)), g.enc(Yb(g, h));
    var hi, pi := HostIsk(g, h, p), PeerIsk(g, h, p);
    if k == 0 then Start(p)
    else if k == 1 then Net(AwaitPake, AwaitAck, [], [HelloAck(h.version, h.sid, h.argonParams)])
    else if k == 2 then Net(AwaitPake, AwaitHost(h.sid, ya), [PakePeer(ya)], [])
    else if k == 3 then Net(AwaitConfirm(hi, PeerMac(hi, g, h, p)), AwaitHost(h.sid, ya), [], [PakeHost(yb, HostMac(hi, g, h, p))])
    else if k == 4 then Net(AwaitConfirm(hi, PeerMac(hi, g, h, p)), Ends(hi, pi), [PakeConfirm(PeerMac(pi, g, h, p))], [])
    else Net(if hi == pi then HostUp(hi, HostKeys(hi)) else HostFailed, Ends(hi, pi), [], if hi == pi then [] else [Closed])
  }

  lemma StageMoves(g: Group, h: HostConfig, p: PeerConfig, k: nat, d: Delivery)
    requires Honest(g, h, p) && SameRoom(h, p) && k < 5
    ensures Deliver(g, h, p, Stage(g, h, p, k), d) == Stage(g, h, p, if d == MESSAGES[k] then k + 1 else k)
  {
    SharesAreGood(g, h, p);
    hide Multiply, Generator, DeriveIsk, MacFor, DecodeShare, Valid;
  }

  lemma LastStage(g: Group, h: HostConfig, p: PeerConfig, ds: seq<Delivery>, n: Net)
    requires g.q > 0 && (n.host.HostUp? || n.host.HostFailed?) && (n.peer.PeerUp? || n.peer.PeerFailed?)
    ensures var r := Run(g, h, p, n, ds); r.host == n.host && r.peer == n.peer
    decreases |ds|
  {
    if ds != [] { LastStage(g, h, p, ds[1..], Deliver(g, h, p, n, ds[0])); }
  }

  lemma {:induction false} RunStages(g: Group, h: HostConfig, p: PeerConfig, k: nat, ds: seq<Delivery>)
    requires Honest(g, h, p) && SameRoom(h, p) && k <= 5
    ensures k <= Done(ds, k) <= 5
    ensures var r, t := Run(g, h, p, Stage(g, h, p, k), ds), Stage(g, h, p, Done(ds, k)); r.host == t.host && r.peer == t.peer
    decreases |ds|
  {
    if ds == [] {
    } else if k == 5 {
      RunStages(g, h, p, 5, ds[1..]);
      LastStage(g, h, p, ds, Stage(g, h, p, 5));
    } else {
      StageMoves(g, h, p, k, ds[0]);
      hide Stage, Deliver;
      RunStages(g, h, p, if ds[0] == MESSAGES[k] then k + 1 else k, ds[1..]);
    }
  }

  /**
   * In one room the five messages settle it: the peer comes up with the fourth delivered and the host with the fifth,
   * neither before, if the generators are the same; and if not, then just there each of them fails.
   */
  lemma CompletesExactlyWhen(g: Group, h: HostConfig, p: PeerConfig, ds: seq<Delivery>)
    requires Honest(g, h, p) && SameRoom(h, p)
    ensures var n, done := Run(g, h, p, Start(p), ds), Done(ds, 0);
            if HostGenerator(g, h) == PeerGenerator(g, h, p) then
              (n.peer.PeerUp? <==> done >= 4) && (n.host.HostUp? <==> done == 5) && !n.peer.PeerFailed? && !n.host.HostFailed?
            else
              (n.peer.PeerFailed? <==> done >= 4) && (n.host.HostFailed? <==> done == 5) && !n.peer.PeerUp? && !n.host.HostUp?
  {
    hide Run, Deliver;
    RunStages(g, h, p, 0, ds);
    SameKeyExactlyWhen(g, h, p);
    hide HostIsk, PeerIsk, Ya, Yb, PeerMac, HostMac, HostGenerator, PeerGenerator;
  }

  function GeneratorInput(w: Buffer, h: HostConfig): Buffer { LvCat(GeneratorFields(w, ChannelId(h.version, h.roomId), h.sid)) }

  /** The hash to the group does not send these two strings to one element. */
  predicate Apart(g: Group, x: Buffer, y: Buffer) { x != y ==> g.toCurve(Sha512(x)) != g.toCurve(Sha512(y)) }

  /**
   * In the same room, unless the hash to the group collides on the two generator strings themselves: with one
   * password an idle pair has both sides up, and with two passwords no side ever comes up.
   */
  lemma PasswordsDecide(g: Group, h: HostConfig, p: PeerConfig, ds: seq<Delivery>)
    requires Honest(g, h, p) && SameRoom(h, p)
    requires Apart(g, GeneratorInput(h.w, h), GeneratorInput(p.deriveW(h.argonParams), h))
    ensures var n := Run(g, h, p, Start(p), ds);
            && (h.w != p.deriveW(h.argonParams) ==> !n.host.HostUp? && !n.peer.PeerUp?)
            && (h.w == p.deriveW(h.argonParams) && n.toHost == [] && n.toPeer == [] ==> n.host.HostUp? && n.peer.PeerUp?)
  {
    var w, ci := p.deriveW(h.argonParams), ChannelId(h.version, h.roomId);
    if GeneratorInput(h.w, h) == GeneratorInput(w, h) {
      GeneratorStringIsInjective(h.w, ci, h.sid, w, ci, h.sid);
    }
    Agreement(g, h, p, ds);
  }

  // ----- what convinces each side, whoever it talks to -----

  /** A side's state and everything it has sent, after any messages. */
  function HostFeed(g: Group, cfg: HostConfig, s: Host, msgs: seq<Msg>): HostReply
    requires g.q > 0
    decreases |msgs|
  {
    if msgs == [] then HostReply(s, [])
    else
      var r := HostStep(g, cfg, s, msgs[0]);
      var t := HostFeed(g, cfg, r.state, msgs[1..]);
      HostReply(t.state, r.out + t.out)
  }

  function PeerFeed(g: Group, cfg: PeerConfig, s: Peer, msgs: seq<Msg>): PeerReply
    requires g.q > 0
    decreases |msgs|
  {
    if msgs == [] then PeerReply(s, [])
    else
      var r := PeerStep(g, cfg, s, msgs[0]);
      var t := PeerFeed(g, cfg, r.state, msgs[1..]);
      PeerReply(t.state, r.out + t.out)
  }

  /** The share stands for an element that is not the identity, and neither is what it makes with the scalar. */
  predicate GoodShare(g: Group, bytes: Buffer, scalar: nat)
    requires g.q > 0
  {
    |bytes| == 32 && g.dec(bytes).Some? && g.dec(bytes).value != 0 && g.dec(bytes).value * scalar % g.q != 0
  }

  /** The key of a transcript: the digest of the session id, the shared element and both shares. */
  function TranscriptKey(g: Group, sid: Buffer, share: Buffer, scalar: nat, ya: Buffer, yb: Buffer): Digest
    requires g.q > 0 && g.dec(share).Some?
  {
    Sha512(LvCat([DSI_ISK, sid, g.enc(g.dec(share).value * scalar % g.q), ya, [], yb, []]))
  }

  ghost predicate ConvincesHost(g: Group, cfg: HostConfig, msgs: seq<Msg>, isk: Digest)
    requires g.q > 0
  {
    && |msgs| >= 3 && msgs[0] == Hello(cfg.version, cfg.roomId)
    && msgs[1].PakePeer? && GoodShare(g, msgs[1].ya, cfg.scalar)
    && var ya, yb := msgs[1].ya, g.enc(HostGenerator(g, cfg) * cfg.scalar % g.q);
       && isk == TranscriptKey(g, cfg.sid, ya, cfg.scalar, ya, yb)
       && msgs[2] == PakeConfirm(Hmac(isk, PEER_TAG + cfg.sid + ya + yb))
  }

  lemma {:induction false} HostStays(g: Group, cfg: HostConfig, s: Host, msgs: seq<Msg>)
    requires g.q > 0 && (s.HostUp? || s.HostFailed?)
    ensures HostFeed(g, cfg, s, msgs) == HostReply(s, [])
    decreases |msgs|
  {
    if msgs != [] { HostStays(g, cfg, s, msgs[1..]); }
  }

  /**
   * Whatever it is sent, the host comes up exactly on a hello for its version and room, a good share, and the right
   * confirmation of that share's own transcript, first and in this order; and it has then sent its two answers.
   */
  lemma HostUpExactlyWhen(g: Group, cfg: HostConfig, msgs: seq<Msg>, isk: Digest)
    requires g.q > 0
    ensures var r := HostFeed(g, cfg, AwaitHello, msgs);
            && (r.state.HostUp? && r.state.isk == isk <==> ConvincesHost(g, cfg, msgs, isk))
            && (ConvincesHost(g, cfg, msgs, isk) ==>
                  var yb := g.enc(HostGenerator(g, cfg) * cfg.scalar % g.q);
                  && r.state.keys == Keys(TransportKey(isk, false), TransportKey(isk, true))
                  && r.out == [HelloAck(cfg.version, cfg.sid, cfg.argonParams),
                               PakeHost(yb, Hmac(isk, HOST_TAG + cfg.sid + msgs[1].ya + yb))])
  {
    hide HostStep, Generator, GoodShare, TranscriptKey;
    if |msgs| >= 1 {
      HostGreets(g, cfg, msgs[0]);
      var r1 := HostStep(g, cfg, AwaitHello, msgs[0]);
      assert HostFeed(g, cfg, AwaitHello, msgs) == Then(r1, HostFeed(g, cfg, r1.state, msgs[1..]));
      if r1.state.HostFailed? {
        HostStays(g, cfg, r1.state, msgs[1..]);
      } else if |msgs| >= 2 {
        HostShares(g, cfg, msgs[1]);
        var r2 := HostStep(g, cfg, AwaitPake, msgs[1]);
        assert msgs[1..][1..] == msgs[2..];
        assert HostFeed(g, cfg, AwaitPake, msgs[1..]) == Then(r2, HostFeed(g, cfg, r2.state, msgs[2..]));
        if r2.state.HostFailed? {
          HostStays(g, cfg, r2.state, msgs[2..]);
        } else if |msgs| >= 3 {
          HostConfirms(g, cfg, r2.state.isk, r2.state.expected, msgs[2]);
          var r3 := HostStep(g, cfg, r2.state, msgs[2]);
          assert msgs[2..][1..] == msgs[3..];
          HostStays(g, cfg, r3.state, msgs[3..]);
        }
      }
    }
  }

  function Then(r: HostReply, t: HostReply): HostReply { HostReply(t.state, r.out + t.out) }

  lemma HostGreets(g: Group, cfg: HostConfig, msg: Msg)
    requires g.q > 0
    ensures var r := HostStep(g, cfg, AwaitHello, msg);
            if msg == Hello(cfg.version, cfg.roomId) then r == HostReply(AwaitPake, [HelloAck(cfg.version, cfg.sid, cfg.argonParams)])
            else r.state == HostFailed
  {
  }

  lemma HostConfirms(g: Group, cfg: HostConfig, isk: Digest, expected: Mac, msg: Msg)
    requires g.q > 0
    ensures HostStep(g, cfg, AwaitConfirm(isk, expected), msg)
            == if msg == PakeConfirm(expected) then HostReply(HostUp(isk, Keys(TransportKey(isk, false), TransportKey(isk, true))), [])
               else HostReply(HostFailed, [Closed])
  {
  }

  lemma HostShares(g: Group, cfg: HostConfig, msg: Msg)
    requires g.q > 0
    ensures var r := HostStep(g, cfg, AwaitPake, msg);
            if msg.PakePeer? && GoodShare(g, msg.ya, cfg.scalar) then
              var yb := g.enc(HostGenerator(g, cfg) * cfg.scalar % g.q);
              var isk := TranscriptKey(g, cfg.sid, msg.ya, cfg.scalar, msg.ya, yb);
              r == HostReply(AwaitConfirm(isk, Hmac(isk, PEER_TAG + cfg.sid + msg.ya + yb)), [PakeHost(yb, Hmac(isk, HOST_TAG + cfg.sid + msg.ya + yb))])
            else r == HostReply(HostFailed, [Closed])
  {
    hide Generator;
    if msg.PakePeer? && GoodShare(g, msg.ya, cfg.scalar) {
      IskFields(cfg.sid, g.enc(g.dec(msg.ya).value * cfg.scalar % g.q), msg.ya, g.enc(HostGenerator(g, cfg) * cfg.scalar % g.q));
    }
  }

  ghost predicate ConvincesPeer(g: Group, cfg: PeerConfig, msgs: seq<Msg>, isk: Digest)
    requires g.q > 0
  {
    && |msgs| >= 2 && msgs[0].HelloAck? && msgs[0].version == cfg.version && cfg.acceptable(msgs[0].argonParams) && |msgs[0].sid| == 16
    && msgs[1].PakeHost? && GoodShare(g, msgs[1].yb, cfg.scalar)
    && var sid, ya, yb := msgs[0].sid, PeerElement(g, cfg, msgs[0]), msgs[1].yb;
       && isk == TranscriptKey(g, sid, yb, cfg.scalar, ya, yb)
       && msgs[1].macHost == Hmac(isk, HOST_TAG + sid + ya + yb)
  }

  /** The share a peer answers an acknowledgement with. */
  function PeerElement(g: Group, cfg: PeerConfig, ack: Msg): Buffer
    requires g.q > 0 && ack.HelloAck?
  {
    g.enc(Generator(g, cfg.deriveW(ack.argonParams), cfg.version, cfg.roomId, ack.sid) * cfg.scalar % g.q)
  }

  lemma {:induction false} PeerStays(g: Group, cfg: PeerConfig, s: Peer, msgs: seq<Msg>)
    requires g.q > 0 && (s.PeerUp? || s.PeerFailed?)
    ensures PeerFeed(g, cfg, s, msgs) == PeerReply(s, [])
    decreases |msgs|
  {
    if msgs != [] { PeerStays(g, cfg, s, msgs[1..]); }
  }

  /** A good share is always answered with the confirmation, right or wrong; a bad one with a rejection, anything else with nothing. */
  lemma PeerShares(g: Group, cfg: PeerConfig, sid: Buffer, ya: Buffer, msg: Msg)
    requires g.q > 0
    ensures var r := PeerStep(g, cfg, AwaitHost(sid, ya), msg);
            if msg.PakeHost? && GoodShare(g, msg.yb, cfg.scalar) then
              var isk := TranscriptKey(g, sid, msg.yb, cfg.scalar, ya, msg.yb);
              && r.out == [PakeConfirm(Hmac(isk, PEER_TAG + sid + ya + msg.yb))]
              && r.state == (if msg.macHost == Hmac(isk, HOST_TAG + sid + ya + msg.yb)
                             then PeerUp(isk, Keys(TransportKey(isk, true), TransportKey(isk, false))) else PeerFailed)
            else r == PeerReply(PeerFailed, if msg.PakeHost? then [Reject] else [])
  {
    if msg.PakeHost? && GoodShare(g, msg.yb, cfg.scalar) {
      IskFields(sid, g.enc(g.dec(msg.yb).value * cfg.scalar % g.q), ya, msg.yb);
    }
  }

  /**
   * Whatever it is sent, the peer comes up exactly on an acknowledgement of its version at an acceptable cost, then a
   * good share with the right confirmation of the transcript; and it has then sent its share and its own confirmation.
   */
  lemma PeerUpExactlyWhen(g: Group, cfg: PeerConfig, msgs: seq<Msg>, isk: Digest)
    requires g.q > 0
    ensures var r := PeerFeed(g, cfg, AwaitAck, msgs);
            && (r.state.PeerUp? && r.state.isk == isk <==> ConvincesPeer(g, cfg, msgs, isk))
            && (ConvincesPeer(g, cfg, msgs, isk) ==>
                  var ya := PeerElement(g, cfg, msgs[0]);
                  && r.state.keys == Keys(TransportKey(isk, true), TransportKey(isk, false))
                  && r.out == [PakePeer(ya), PakeConfirm(Hmac(isk, PEER_TAG + msgs[0].sid + ya + msgs[1].yb))])
  {
    hide Generator;
    if |msgs| >= 1 {
      var r1 := PeerStep(g, cfg, AwaitAck, msgs[0]);
      if r1.state.PeerFailed? {
        PeerStays(g, cfg, r1.state, msgs[1..]);
      } else if |msgs| >= 2 {
        PeerShares(g, cfg, msgs[0].sid, PeerElement(g, cfg, msgs[0]), msgs[1]);
        var r2 := PeerStep(g, cfg, r1.state, msgs[1]);
        PeerStays(g, cfg, r2.state, msgs[2..]);
        assert msgs[1..][1..] == msgs[2..];
      }
    }
    hide PeerStep;
  }

  /** A hello for another room or version is rejected before the host hangs up; nothing else is. */
  lemma HostHangsUp(g: Group, cfg: HostConfig, s: Host, msg: Msg)
    requires g.q > 0 && !s.HostFailed? && HostStep(g, cfg, s, msg).state.HostFailed?
    ensures HostStep(g, cfg, s, msg).out == if s.AwaitHello? && msg.Hello? then [Reject, Closed] else [Closed]
  {
  }

  // ----- the mutable sides -----

  class HostSide {
    const g: Group
    const cfg: HostConfig
    var state: Host
    var sent: seq<Msg>

    constructor (g: Group, cfg: HostConfig)
      ensures this.g == g && this.cfg == cfg && state == AwaitHello && sent == []
    {
      this.g, this.cfg := g, cfg;
      state, sent := AwaitHello, [];
    }

    method Fail(out: seq<Msg>)
      modifies this
      ensures state == HostFailed && sent == old(sent) + out
    {
      state, sent := HostFailed, sent + out;
    }

    method Receive(msg: Msg)
      requires g.q > 0
      modifies this
      ensures var r := HostStep(g, cfg, old(state), msg); state == r.state && sent == old(sent) + r.out
    {
      match state
      case AwaitHello =>
        if !msg.Hello? {
          Fail([Closed]);
          return;
        }
        if msg.version != cfg.version || msg.roomId != cfg.roomId {
          Fail([Reject, Closed]);
          return;
        }
        state, sent := AwaitPake, sent + [HelloAck(cfg.version, cfg.sid, cfg.argonParams)];
      case AwaitPake =>
        if !msg.PakePeer? {
          Fail([Closed]);
          return;
        }
        var share := DecodeShare(g, msg.ya);
        if share.None? {
          Fail([Closed]);
          return;
        }
        var yb := g.enc(HostShare(g, cfg));
        var k := Multiply(g, share.value, cfg.scalar);
        if k == 0 {
          Fail([Closed]);
          return;
        }
        var isk := DeriveIsk(cfg.sid, g.enc(k), msg.ya, yb);
        state := AwaitConfirm(isk, MacFor(isk, PEER_TAG, cfg.sid, msg.ya, yb));
        sent := sent + [PakeHost(yb, MacFor(isk, HOST_TAG, cfg.sid, msg.ya, yb))];
      case AwaitConfirm(isk, expected) =>
        if msg != PakeConfirm(expected) {
          Fail([Closed]);
          return;
        }
        state := HostUp(isk, HostKeys(isk));
      case _ =>
    }
  }

  class PeerSide {
    const g: Group
    const cfg: PeerConfig
    var state: Peer
    var sent: seq<Msg>

    constructor (g: Group, cfg: PeerConfig)
      ensures this.g == g && this.cfg == cfg && state == AwaitAck && sent == [Hello(cfg.version, cfg.roomId)]
    {
      this.g, this.cfg := g, cfg;
      state, sent := AwaitAck, [Hello(cfg.version, cfg.roomId)];
    }

    method Receive(msg: Msg)
      requires g.q > 0
      modifies this
      ensures var r := PeerStep(g, cfg, old(state), msg); state == r.state && sent == old(sent) + r.out
    {
      match state
      case AwaitAck =>
        if !msg.HelloAck? || msg.version != cfg.version || !cfg.acceptable(msg.argonParams) || |msg.sid| != SID_BYTES {
          state := PeerFailed;
          return;
        }
        var ya := g.enc(PeerShare(g, cfg, cfg.deriveW(msg.argonParams), msg.sid));
        state, sent := AwaitHost(msg.sid, ya), sent + [PakePeer(ya)];
      case AwaitHost(sid, ya) =>
        if !msg.PakeHost? {
          state := PeerFailed;
          return;
        }
        var share := DecodeShare(g, msg.yb);
        if share.None? || Multiply(g, share.value, cfg.scalar) == 0 {
          state, sent := PeerFailed, sent + [Reject];
          return;
        }
        var isk := DeriveIsk(sid, g.enc(Multiply(g, share.value, cfg.scalar)), ya, msg.yb);
        sent := sent + [PakeConfirm(MacFor(isk, PEER_TAG, sid, ya, msg.yb))];
        if msg.macHost == MacFor(isk, HOST_TAG, sid, ya, msg.yb) {
          state := PeerUp(isk, PeerKeys(isk));
        } else {
          state := PeerFailed;
        }
      case _ =>
    }
  }
}
