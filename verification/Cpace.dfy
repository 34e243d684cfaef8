/**
 * CPace's strings and key schedule (src/main/crypto/cpace.ts) over an abstract group of prime order, with
 * symbolic hashes: a digest is the term of what was hashed, so it tells inputs apart and nothing else.
 */
module Cpace {
  import opened Bytes
  import opened Lv
  import opened Arithmetic

  const DSI: Buffer := [67, 80, 97, 99, 101, 82, 105, 115, 116, 114, 101, 116, 116, 111, 50, 53, 53]
  const DSI_ISK: Buffer := DSI + [95, 73, 83, 75]
  const ZPAD_TARGET := 128
  const SID_BYTES := 16
  const POINT_BYTES := 32

  // ----- the generator string -----

  function Max0(x: int): nat { if x < 0 then 0 else x }

  function FieldLength(bytes: Buffer): nat { |Prepended(bytes)| }

  function Zeros(n: nat): Buffer { seq(n, i => 0) }

  function ZeroPad(w: Buffer): Buffer { Zeros(Max0(ZPAD_TARGET - 1 - FieldLength(w) - FieldLength(DSI))) }

  function GeneratorFields(w: Buffer, ci: Buffer, sid: Buffer): seq<Buffer> { [DSI, w, ZeroPad(w), ci, sid] }

  method GeneratorString(w: Buffer, ci: Buffer, sid: Buffer) returns (r: Buffer)
    ensures r == LvCat(GeneratorFields(w, ci, sid))
  {
    var prsLen := LvLen(|w|);
    var dsiLen := LvLen(|DSI|);
    var zpad := ZPAD_TARGET - 1 - (prsLen + |w|) - (dsiLen + |DSI|);
    r := BuildLvCat([DSI, w, Zeros(Max0(zpad)), ci, sid]);
  }

  /** The generator string tells every password, channel and session apart. */
  lemma GeneratorStringIsInjective(w: Buffer, ci: Buffer, sid: Buffer, w': Buffer, ci': Buffer, sid': Buffer)
    requires LvCat(GeneratorFields(w, ci, sid)) == LvCat(GeneratorFields(w', ci', sid'))
    ensures w == w' && ci == ci' && sid == sid'
  {
    var a, b := GeneratorFields(w, ci, sid), GeneratorFields(w', ci', sid');
    LvCatIsInjective(a, b);
    assert a[1] == b[1] && a[3] == b[3] && a[4] == b[4];
  }

  lemma LvCatThree(a: Buffer, b: Buffer, c: Buffer)
    ensures LvCat([a, b, c]) == Prepended(a) + Prepended(b) + Prepended(c)
  {
    LvCatCons(a, [b, c]);
    LvCatCons(b, [c]);
    LvCatCons(c, []);
    assert [a] + [b, c] == [a, b, c] && [b] + [c] == [b, c] && [c] + [] == [c];
    assert LvCat([]) == [];
  }

  /**
   * The first three fields fill exactly one 128-byte hash block whenever the separator and password fields
   * leave room for the padding's own length byte, and otherwise never do.
   */
  lemma FirstFieldsFillABlock(w: Buffer, ci: Buffer, sid: Buffer)
    ensures var first := LvCat([DSI, w, ZeroPad(w)]);
            && LvCat(GeneratorFields(w, ci, sid)) == first + LvCat([ci, sid])
            && (|first| == 128 <==> FieldLength(DSI) + FieldLength(w) <= 127)
            && |first| >= 128
  {
    LvCatThree(DSI, w, ZeroPad(w));
    LebOfSmall(|ZeroPad(w)|);
    LvCatAppend([DSI, w, ZeroPad(w)], [ci, sid]);
    assert [DSI, w, ZeroPad(w)] + [ci, sid] == GeneratorFields(w, ci, sid);
  }

  // ----- the group -----

  /**
   * A group of prime order written additively: its elements are the numbers below q, 0 being the identity.
   * `enc` is the 32-byte encoding, `dec` its partial inverse and `toCurve` the hash to the group.
   */
  datatype Group = Group(q: nat, enc: nat -> Buffer, dec: Buffer -> Option<nat>, toCurve: Digest -> nat)

  datatype Digest = Sha512(input: Buffer)

  datatype Mac = Hmac(key: Digest, message: Buffer)

  ghost predicate Valid(g: Group) {
    && Prime(g.q)
    && (forall x: nat | x < g.q :: |g.enc(x)| == POINT_BYTES && g.dec(g.enc(x)) == Some(x))
    && (forall b :: g.dec(b).Some? ==> g.dec(b).value < g.q && g.enc(g.dec(b).value) == b)
    && (forall d :: 0 < g.toCurve(d) < g.q)
  }

  function Multiply(g: Group, x: nat, s: nat): nat
    requires g.q > 0
  {
    x * s % g.q
  }

  function ChannelId(version: nat, roomId: Buffer): Buffer { VersionText(version) + roomId }

  /** "erros-share/v" and "/" around the version's decimal digits. */
  function VersionText(version: nat): Buffer {
    [101, 114, 114, 111, 115, 45, 115, 104, 97, 114, 101, 47, 118] + Decimal(version) + [47]
  }

  function Decimal(n: nat): Buffer {
    if n < 10 then [48 + n] else Decimal(n / 10) + [48 + n % 10]
  }

  function Generator(g: Group, w: Buffer, version: nat, roomId: Buffer, sid: Buffer): nat {
    g.toCurve(Sha512(LvCat(GeneratorFields(w, ChannelId(version, roomId), sid))))
  }

  function DeriveIsk(sid: Buffer, k: Buffer, ya: Buffer, yb: Buffer): Digest {
    Sha512(LvCat([DSI_ISK, sid, k]) + LvCat([ya, []]) + LvCat([yb, []]))
  }

  const HOST_TAG: Buffer := [104, 111, 115, 116]
  const PEER_TAG: Buffer := [112, 101, 101, 114]

  function MacFor(isk: Digest, tag: Buffer, sid: Buffer, ya: Buffer, yb: Buffer): Mac {
    Hmac(isk, tag + sid + ya + yb)
  }

  /** A share is refused when it is not an element's encoding, or is the identity's. */
  function DecodeShare(g: Group, bytes: Buffer): Option<nat> {
    if |bytes| != POINT_BYTES then None
    else
      var p := g.dec(bytes);
      if p == Some(0) then None else p
  }

  /** The characters of a text, one byte each. */
  function Text(s: string): seq<int> { seq(|s|, i requires 0 <= i < |s| => s[i] as int) }

  /** The byte strings above are these texts. */
  lemma TextsAre(version: nat)
    ensures DSI == Text("CPaceRistretto255") && DSI_ISK == Text("CPaceRistretto255_ISK")
    ensures HOST_TAG == Text("host") && PEER_TAG == Text("peer")
    ensures VersionText(version) == Text("erros-share/v") + Decimal(version) + Text("/")
  {
    assert Text("CPaceRistretto255_ISK")[..17] == Text("CPaceRistretto255");
  }

  // ----- what the strings tell apart -----

  /** The number a string of decimal digits stands for. */
  function DecimalValue(b: Buffer): int {
    if b == [] then 0 else 10 * DecimalValue(b[..|b| - 1]) + b[|b| - 1] - 48
  }

  predicate Digits(b: Buffer) { forall i | 0 <= i < |b| :: 48 <= b[i] <= 57 }

  lemma {:induction false} DecimalReads(n: nat)
    ensures Digits(Decimal(n)) && DecimalValue(Decimal(n)) == n
  {
    if n >= 10 {
      DecimalReads(n / 10);
      var d := Decimal(n / 10);
      assert (d + [48 + n % 10])[..|d|] == d;
    } else {
      assert DecimalValue([48 + n]) == 10 * DecimalValue([]) + n;
    }
  }

  /** Digits end at the first slash. */
  lemma {:induction false} SlashSplits(a: Buffer, rest: Buffer, b: Buffer, more: Buffer)
    requires Digits(a) && Digits(b) && a + [47] + rest == b + [47] + more
    ensures a == b && rest == more
  {
    var s, t := a + [47] + rest, b + [47] + more;
    if a == [] || b == [] {
      assert s[0] == t[0];
      assert s[1..] == rest || a != [];
      assert t[1..] == more || b != [];
    } else {
      assert s[0] == a[0] && t[0] == b[0];
      assert s[1..] == a[1..] + [47] + rest && t[1..] == b[1..] + [47] + more;
      SlashSplits(a[1..], rest, b[1..], more);
    }
  }

  /** The channel names the version and the room. */
  lemma ChannelTellsApart(version: nat, roomId: Buffer, version': nat, roomId': Buffer)
    requires ChannelId(version, roomId) == ChannelId(version', roomId')
    ensures version == version' && roomId == roomId'
  {
    var a, b := ChannelId(version, roomId), ChannelId(version', roomId');
    assert a[13..] == Decimal(version) + [47] + roomId && b[13..] == Decimal(version') + [47] + roomId';
    DecimalReads(version);
    DecimalReads(version');
    SlashSplits(Decimal(version), roomId, Decimal(version'), roomId');
  }

  /** No two rooms, versions, sessions or passwords share a generator string. */
  lemma GeneratorTellsApart(w: Buffer, version: nat, roomId: Buffer, sid: Buffer, w': Buffer, version': nat, roomId': Buffer, sid': Buffer)
    requires LvCat(GeneratorFields(w, ChannelId(version, roomId), sid)) == LvCat(GeneratorFields(w', ChannelId(version', roomId'), sid'))
    ensures w == w' && version == version' && roomId == roomId' && sid == sid'
  {
    GeneratorStringIsInjective(w, ChannelId(version, roomId), sid, w', ChannelId(version', roomId'), sid');
    ChannelTellsApart(version, roomId, version', roomId');
  }

  /** One side's confirmation never passes for the other's, and it binds the key, the session and both shares. */
  lemma MacBindsTranscript(isk: Digest, sid: Buffer, ya: Buffer, yb: Buffer, isk': Digest, sid': Buffer, ya': Buffer, yb': Buffer)
    requires |sid| == |sid'| == 16 && |ya| == |ya'| == |yb| == |yb'| == 32
    ensures MacFor(isk, HOST_TAG, sid, ya, yb) != MacFor(isk', PEER_TAG, sid', ya', yb')
    ensures forall tag :: MacFor(isk, tag, sid, ya, yb) == MacFor(isk', tag, sid', ya', yb') ==> isk == isk' && sid == sid' && ya == ya' && yb == yb'
  {
    var a, b := MacFor(isk, HOST_TAG, sid, ya, yb).message, MacFor(isk', PEER_TAG, sid', ya', yb').message;
    assert a[0] == 104 && b[0] == 112;
    forall tag | MacFor(isk, tag, sid, ya, yb) == MacFor(isk', tag, sid', ya', yb') ensures isk == isk' && sid == sid' && ya == ya' && yb == yb' {
      var m, n := MacFor(isk, tag, sid, ya, yb).message, MacFor(isk', tag, sid', ya', yb').message;
      var t := |tag|;
      assert m[t..t + 16] == sid && m[t + 16..t + 48] == ya && m[t + 48..] == yb;
      assert n[t..t + 16] == sid' && n[t + 16..t + 48] == ya' && n[t + 48..] == yb';
    }
  }

  // ----- arithmetic of the group -----

  /** The two sides' shared points agree exactly when their generators do. */
  lemma SharedPointsAgreeExactlyWhen(g: Group, gp: nat, gh: nat, a: nat, b: nat)
    requires Prime(g.q) && 0 < gp < g.q && 0 < gh < g.q && 0 < a < g.q && 0 < b < g.q
    ensures Multiply(g, Multiply(g, gp, a), b) == Multiply(g, Multiply(g, gh, b), a) <==> gp == gh
  {
    hide Prime, Divides;
    var q := g.q;
    Reduced(q, gp * a, b);
    Reduced(q, gh * b, a);
    Reorder(gp, a, b);
    Reorder(gh, b, a);
    Congruent(q, gp * a * b, gh * b * a);
    if Multiply(g, Multiply(g, gp, a), b) == Multiply(g, Multiply(g, gh, b), a) {
      Factor(a, b, gp, gh);
      Cancels(q, a, b * (gp - gh));
      Cancels(q, b, gp - gh);
      Small(q, gp - gh);
    }
  }

  /** No honest share or shared point is the identity. */
  lemma NeverIdentity(g: Group, x: nat, s: nat)
    requires Prime(g.q) && 0 < x < g.q && 0 < s < g.q
    ensures 0 < Multiply(g, x, s) < g.q
  {
    Congruent(g.q, x * s, 0);
    if Divides(g.q, s * x) {
      Cancels(g.q, s, x);
      Small(g.q, x);
    }
  }
}
