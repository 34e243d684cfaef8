/** What a history of frames says: which peers it announced, which are up, which data it carries. */
module Streams {
  import opened Bytes
  import opened RelayWire
  import opened ClientWire
  import opened RelayRoom
  import opened RelayLink

  function Gather<M, T>(xs: seq<M>, f: M -> seq<T>): seq<T> {
    if xs == [] then [] else Gather(xs[..|xs| - 1], f) + f(xs[|xs| - 1])
  }

  lemma {:induction false} GatherConcat<M, T>(a: seq<M>, b: seq<M>, f: M -> seq<T>)
    ensures Gather(a + b, f) == Gather(a, f) + Gather(b, f)
  {
    if b == [] {
      assert a + b == a;
    } else {
      assert (a + b)[..|a + b| - 1] == a + b[..|b| - 1];
      GatherConcat(a, b[..|b| - 1], f);
    }
  }

  /** A frame tagged with a connId, as the host's link reads it. */
  function TagOf(m: Down): Option<Tagged> {
    if m.Raw? && DecodeData(m.frame).Some? && DecodeData(m.frame).value.connId.Some?
    then Some(Tagged(DecodeData(m.frame).value.connId.value, DecodeData(m.frame).value.payload))
    else None
  }

  function UpOf(m: Down): seq<nat> { if m.PeerUp? then [m.id] else [] }
  function HostHears(m: Down, c: nat): seq<Payload> {
    if TagOf(m).Some? && TagOf(m).value.connId == c then [TagOf(m).value.payload] else []
  }
  function PeerHears(m: Down): seq<Payload> {
    if m.Raw? && DecodeData(m.frame).Some? && DecodeData(m.frame).value.connId.None? then [DecodeData(m.frame).value.payload] else []
  }
  function PeerSays(b: Buffer): seq<Payload> {
    var d := DecodeDataFromPeer(b);
    if d.Some? then [d.value] else []
  }
  function HostSays(b: Buffer, c: nat): seq<Payload> {
    var d := DecodeDataFromHost(b);
    if d.Some? && d.value.connId == c then [d.value.payload] else []
  }
  function KickOf(b: Buffer): seq<nat> {
    if DecodeKick(b).Some? then [DecodeKick(b).value] else []
  }

  /** The connIds a host was told of, in order. */
  function UpIds(h: seq<Down>): seq<nat> { Gather(h, UpOf) }
  /** The payloads a host was sent under connId c. */
  function ToHost(h: seq<Down>, c: nat): seq<Payload> { Gather(h, m => HostHears(m, c)) }
  /** The payloads a peer was sent. */
  function ToPeer(d: seq<Down>): seq<Payload> { Gather(d, PeerHears) }
  /** The payloads among a peer's raw frames. */
  function PeerSent(u: seq<Buffer>): seq<Payload> { Gather(u, PeerSays) }
  /** The payloads a host addressed to connId c. */
  function HostSent(u: seq<Buffer>, c: nat): seq<Payload> { Gather(u, b => HostSays(b, c)) }
  function KickIds(u: seq<Buffer>): seq<nat> { Gather(u, KickOf) }

  function Kicked(u: seq<Buffer>): set<nat> { set c | c in KickIds(u) }

  function SettleOne(up: set<nat>, m: Down): set<nat> {
    match m
    case PeerUp(c) => up + {c}
    case PeerDown(c) => up - {c}
    case _ => up
  }

  /** The set of live connIds after `h`, starting from `up`. */
  function Settle(up: set<nat>, h: seq<Down>): set<nat> {
    if h == [] then up else SettleOne(Settle(up, h[..|h| - 1]), h[|h| - 1])
  }

  lemma {:induction false} SettleConcat(up: set<nat>, a: seq<Down>, b: seq<Down>)
    ensures Settle(up, a + b) == Settle(Settle(up, a), b)
  {
    if b == [] {
      assert a + b == a;
    } else {
      assert (a + b)[..|a + b| - 1] == a + b[..|b| - 1];
      SettleConcat(up, a, b[..|b| - 1]);
    }
  }

  lemma SettleAppend(up: set<nat>, h: seq<Down>, m: Down)
    ensures Settle(up, h + [m]) == SettleOne(Settle(up, h), m)
  {
    assert (h + [m])[..|h|] == h;
  }

  lemma SettleHead(up: set<nat>, h: seq<Down>)
    requires h != []
    ensures Settle(up, h) == Settle(SettleOne(up, h[0]), h[1..])
  {
    assert h == [h[0]] + h[1..];
    SettleConcat(up, [h[0]], h[1..]);
    SettleAppend(up, [], h[0]);
    assert [] + [h[0]] == [h[0]];
  }

  /** Frames that never announce c cannot bring it up. */
  lemma {:induction false} SettleForgets(up: set<nat>, h: seq<Down>, c: nat)
    requires c !in UpIds(h)
    ensures Settle(up - {c}, h) == Settle(up, h) - {c}
  {
    if h != [] {
      SettleForgets(up, h[..|h| - 1], c);
    }
  }

  /** Without a PEER_DOWN or a PEER_UP among them, frames leave the live set alone. */
  lemma SettleNeutral(up: set<nat>, h: seq<Down>, m: Down)
    requires !m.PeerUp? && !m.PeerDown?
    ensures Settle(up, h + [m]) == Settle(up, h)
  {
    SettleAppend(up, h, m);
  }

  /** What the relay may put on a host's socket: READY first, each connId announced once, data only from peers that are up. */
  ghost predicate Disciplined(h: seq<Down>) {
    h == [] ||
      var before, m := h[..|h| - 1], h[|h| - 1];
      && Disciplined(before)
      && (m.Ready? <==> before == [])
      && (m.PeerUp? ==> m.id !in UpIds(before))
      && (TagOf(m).Some? ==> TagOf(m).value.connId in Settle({}, before))
  }

  lemma DisciplinedAppend(h: seq<Down>, m: Down)
    requires Disciplined(h) && (m.Ready? <==> h == [])
    requires m.PeerUp? ==> m.id !in UpIds(h)
    requires TagOf(m).Some? ==> TagOf(m).value.connId in Settle({}, h)
    ensures Disciplined(h + [m])
  {
    assert (h + [m])[..|h|] == h;
  }

  lemma {:induction false} DisciplinedPrefix(h: seq<Down>, k: nat)
    requires Disciplined(h) && k <= |h|
    ensures Disciplined(h[..k])
  {
    if k < |h| {
      DisciplinedPrefix(h[..|h| - 1], k);
      assert h[..|h| - 1][..k] == h[..k];
    } else {
      assert h[..k] == h;
    }
  }

  lemma {:induction false} Announced(h: seq<Down>, i: nat)
    requires i < |h| && h[i].PeerUp?
    ensures h[i].id in UpIds(h)
  {
    if i < |h| - 1 { Announced(h[..|h| - 1], i); }
  }

  lemma {:induction false} LiveWasAnnounced(h: seq<Down>, c: nat)
    requires c in Settle({}, h)
    ensures c in UpIds(h)
  {
    if c !in Settle({}, h[..|h| - 1]) { } else { LiveWasAnnounced(h[..|h| - 1], c); }
  }

  /** Spelled out by position: READY first and only first, and no connId announced twice. */
  lemma {:induction false} DisciplineByPosition(h: seq<Down>, i: nat, j: nat)
    requires Disciplined(h) && i < |h| && j < |h|
    ensures h[i].Ready? <==> i == 0
    ensures i != j && h[i].PeerUp? && h[j].PeerUp? ==> h[i].id != h[j].id
    ensures TagOf(h[i]).Some? ==> TagOf(h[i]).value.connId in Settle({}, h[..i])
  {
    var before := h[..|h| - 1];
    if i < |h| - 1 && j < |h| - 1 {
      DisciplineByPosition(before, i, j);
      assert before[..i] == h[..i];
    } else {
      assert h[..|h| - 1] == before;
      if i < |h| - 1 {
        DisciplineByPosition(before, i, i);
        assert before[..i] == h[..i];
        if h[i].PeerUp? { Announced(before, i); }
      }
      if j < |h| - 1 && h[j].PeerUp? { Announced(before, j); }
    }
  }

  /** Being up at the end of `h` means: announced at some point and not taken down since. */
  lemma {:induction false} UpSince(h: seq<Down>, c: nat) returns (k: nat)
    requires c in Settle({}, h)
    ensures k < |h| && h[k] == PeerUp(c) && forall j | k < j < |h| :: h[j] != PeerDown(c)
  {
    var before, m := h[..|h| - 1], h[|h| - 1];
    if m == PeerUp(c) {
      k := |h| - 1;
    } else {
      k := UpSince(before, c);
    }
  }

  lemma {:induction false} DistinctIds(h: seq<Down>)
    requires Disciplined(h)
    ensures forall i, j | 0 <= i < j < |UpIds(h)| :: UpIds(h)[i] != UpIds(h)[j]
  {
    if h != [] {
      var before, m := h[..|h| - 1], h[|h| - 1];
      DistinctIds(before);
      var ids := UpIds(before);
      assert UpIds(h) == ids + UpOf(m);
      forall i, j | 0 <= i < j < |UpIds(h)| ensures UpIds(h)[i] != UpIds(h)[j] {
        assert ids[i] in ids;
      }
    }
  }

  // ----- one more frame -----

  lemma HostHistory(h: seq<Down>, m: Down, c: nat)
    ensures UpIds(h + [m]) == UpIds(h) + UpOf(m)
    ensures ToHost(h + [m], c) == ToHost(h, c) + HostHears(m, c)
  {
    assert (h + [m])[..|h|] == h;
  }

  lemma PeerHistory(d: seq<Down>, m: Down)
    ensures ToPeer(d + [m]) == ToPeer(d) + PeerHears(m)
  {
    assert (d + [m])[..|d|] == d;
  }

  lemma PeerWrites(u: seq<Buffer>, b: Buffer)
    ensures PeerSent(u + [b]) == PeerSent(u) + PeerSays(b)
  {
    assert (u + [b])[..|u|] == u;
  }

  lemma HostWrites(u: seq<Buffer>, b: Buffer, c: nat)
    ensures HostSent(u + [b], c) == HostSent(u, c) + HostSays(b, c)
    ensures KickIds(u + [b]) == KickIds(u) + KickOf(b)
  {
    assert (u + [b])[..|u|] == u;
  }

  lemma ToHostConcat(a: seq<Down>, b: seq<Down>, c: nat)
    ensures ToHost(a + b, c) == ToHost(a, c) + ToHost(b, c)
    ensures UpIds(a + b) == UpIds(a) + UpIds(b)
  {
    GatherConcat(a, b, m => HostHears(m, c));
    GatherConcat(a, b, UpOf);
  }

  lemma ToPeerConcat(a: seq<Down>, b: seq<Down>)
    ensures ToPeer(a + b) == ToPeer(a) + ToPeer(b)
  {
    GatherConcat(a, b, PeerHears);
  }

  lemma HostSentConcat(a: seq<Buffer>, b: seq<Buffer>, c: nat)
    ensures HostSent(a + b, c) == HostSent(a, c) + HostSent(b, c)
    ensures KickIds(a + b) == KickIds(a) + KickIds(b)
  {
    GatherConcat(a, b, x => HostSays(x, c));
    GatherConcat(a, b, KickOf);
  }

  /** No data under a connId that was never announced. */
  lemma {:induction false} SilentUntilAnnounced(h: seq<Down>, c: nat)
    requires Disciplined(h) && c !in UpIds(h)
    ensures ToHost(h, c) == []
  {
    if h != [] {
      var before, m := h[..|h| - 1], h[|h| - 1];
      SilentUntilAnnounced(before, c);
      if c in Settle({}, before) { LiveWasAnnounced(before, c); }
    }
  }
}
