/** Length-value strings (src/main/crypto/lv.ts): LEB128 lengths and their concatenation. */
module Lv {
  import opened Bytes
  import opened Arithmetic

  function Leb128(n: nat): (b: Buffer)
    ensures |b| >= 1
    decreases n
  {
    if n < 128 then [n] else [n % 128 + 128] + Leb128(n / 128)
  }

  function Prepended(bytes: Buffer): Buffer { Leb128(|bytes|) + bytes }

  function Joined(parts: seq<Buffer>): Buffer {
    if parts == [] then [] else Joined(parts[..|parts| - 1]) + parts[|parts| - 1]
  }

  function LvCat(fields: seq<Buffer>): Buffer {
    if fields == [] then [] else LvCat(fields[..|fields| - 1]) + Prepended(fields[|fields| - 1])
  }

  // ----- the builders, filling arrays by offset -----

  method EncodeLeb128(value: nat) returns (out: Buffer)
    ensures out == Leb128(value)
  {
    out := [];
    var n := value;
    var more := true;
    while more
      invariant more ==> out + Leb128(n) == Leb128(value)
      invariant !more ==> out == Leb128(value)
      decreases n, more
    {
      var byte: Byte := n % 128;
      var rest := n / 128;
      if rest > 0 { byte := byte + 128; }
      assert out + Leb128(n) == if rest > 0 then out + [byte] + Leb128(rest) else out + [byte];
      out := out + [byte];
      n := rest;
      more := n > 0;
    }
  }

  /** The loop that counts how many bytes LEB128 takes. */
  method LvLen(n: nat) returns (len: nat)
    ensures len == |Leb128(n)|
  {
    len := 1;
    var v := n / 128;
    while v > 0
      invariant len + (if v > 0 then |Leb128(v)| else 0) == |Leb128(n)|
    {
      len := len + 1;
      v := v / 128;
    }
  }

  method SetAt(out: array<Byte>, bytes: Buffer, offset: nat)
    requires offset + |bytes| <= out.Length
    modifies out
    ensures out[..] == old(out[..offset]) + bytes + old(out[offset + |bytes|..])
  {
    for i := 0 to |bytes|
      invariant forall j | 0 <= j < out.Length :: out[j] == if offset <= j < offset + i then bytes[j - offset] else old(out[j])
    {
      out[offset + i] := bytes[i];
    }
  }

  method PrependLen(bytes: Buffer) returns (r: Buffer)
    ensures r == Prepended(bytes)
  {
    var len := EncodeLeb128(|bytes|);
    var out := new Byte[|len| + |bytes|](_ => 0);
    SetAt(out, len, 0);
    SetAt(out, bytes, |len|);
    r := out[..];
    assert r == len + bytes;
  }

  method ConcatBytes(arrays: seq<Buffer>) returns (r: Buffer)
    ensures r == Joined(arrays)
  {
    var total := 0;
    for i := 0 to |arrays|
      invariant total == |Joined(arrays[..i])|
    {
      assert arrays[..i + 1][..i] == arrays[..i];
      total := total + |arrays[i]|;
    }
    assert arrays[..|arrays|] == arrays;
    var out := new Byte[total](_ => 0);
    var offset := 0;
    for i := 0 to |arrays|
      invariant offset == |Joined(arrays[..i])| <= total && out[..offset] == Joined(arrays[..i])
    {
      assert arrays[..i + 1][..i] == arrays[..i];
      JoinedGrows(arrays, i + 1);
      SetAt(out, arrays[i], offset);
      offset := offset + |arrays[i]|;
    }
    r := out[..];
  }

  lemma {:induction false} JoinedGrows(arrays: seq<Buffer>, i: nat)
    requires i <= |arrays|
    ensures |Joined(arrays[..i])| <= |Joined(arrays)|
    decreases |arrays| - i
  {
    if i == |arrays| {
      assert arrays[..i] == arrays;
    } else {
      assert arrays[..i + 1][..i] == arrays[..i];
      JoinedGrows(arrays, i + 1);
    }
  }

  method BuildLvCat(fields: seq<Buffer>) returns (r: Buffer)
    ensures r == LvCat(fields)
  {
    var parts: seq<Buffer> := [];
    for i := 0 to |fields|
      invariant |parts| == i && Joined(parts) == LvCat(fields[..i])
    {
      var p := PrependLen(fields[i]);
      assert fields[..i + 1][..i] == fields[..i];
      assert (parts + [p])[..i] == parts;
      parts := parts + [p];
    }
    assert fields[..|fields|] == fields;
    r := ConcatBytes(parts);
  }

  // ----- reading them back -----

  datatype Parse<T> = Parse(value: T, rest: Buffer) | Malformed

  /** Reads one LEB128 number off the front. */
  function Unleb(b: Buffer): (r: Parse<nat>)
    ensures r.Parse? ==> |r.rest| < |b|
  {
    if b == [] then Malformed
    else if b[0] < 128 then Parse(b[0] as nat, b[1..])
    else
      var tail := Unleb(b[1..]);
      if tail.Malformed? then Malformed else Parse(b[0] as int - 128 + 128 * tail.value, tail.rest)
  }

  function UnlvCat(b: Buffer): (r: Option<seq<Buffer>>)
    decreases |b|
  {
    if b == [] then Some([])
    else
      var len := Unleb(b);
      if len.Malformed? || len.value > |len.rest| then None
      else
        var tail := UnlvCat(len.rest[len.value..]);
        if tail.None? then None else Some([len.rest[..len.value]] + tail.value)
  }

  /** LEB128 is self-delimiting: whatever follows, the number and what follows it come back. */
  lemma {:induction false} LebSelfDelimiting(n: nat, rest: Buffer)
    ensures Unleb(Leb128(n) + rest) == Parse(n, rest)
    decreases n
  {
    var b := Leb128(n) + rest;
    if n < 128 {
      assert b[1..] == rest;
    } else {
      assert b[1..] == Leb128(n / 128) + rest;
      LebSelfDelimiting(n / 128, rest);
    }
  }

  lemma {:induction false} LvCatCons(f: Buffer, fields: seq<Buffer>)
    ensures LvCat([f] + fields) == Prepended(f) + LvCat(fields)
  {
    hide Prepended;
    if fields == [] {
      assert [f] + fields == [f] && [f][..0] == [];
      assert LvCat([f]) == LvCat([]) + Prepended(f);
    } else {
      var init, last, all := fields[..|fields| - 1], fields[|fields| - 1], [f] + fields;
      assert all[..|all| - 1] == [f] + init && all[|all| - 1] == last;
      LvCatCons(f, init);
      Regroup(Prepended(f), LvCat(init), Prepended(last));
    }
  }

  /** Every field list, of any length, comes back from its string. */
  lemma {:induction false} LvCatRoundTrip(fields: seq<Buffer>)
    ensures UnlvCat(LvCat(fields)) == Some(fields)
  {
    if fields != [] {
      var f, rest := fields[0], fields[1..];
      assert fields == [f] + rest;
      LvCatCons(f, rest);
      LvCatRoundTrip(rest);
      var b := LvCat(fields);
      assert b == Leb128(|f|) + (f + LvCat(rest));
      LebSelfDelimiting(|f|, f + LvCat(rest));
      assert (f + LvCat(rest))[..|f|] == f && (f + LvCat(rest))[|f|..] == LvCat(rest);
    }
  }

  /** No two field lists, whatever their lengths, share a string. */
  lemma LvCatIsInjective(a: seq<Buffer>, b: seq<Buffer>)
    requires LvCat(a) == LvCat(b)
    ensures a == b
  {
    LvCatRoundTrip(a);
    LvCatRoundTrip(b);
  }

  lemma {:induction false} LvCatAppend(a: seq<Buffer>, b: seq<Buffer>)
    ensures LvCat(a + b) == LvCat(a) + LvCat(b)
  {
    hide Prepended;
    if b == [] {
      assert a + b == a;
    } else {
      var init, last := b[..|b| - 1], b[|b| - 1];
      assert (a + b)[..|a + b| - 1] == a + init && (a + b)[|a + b| - 1] == last;
      LvCatAppend(a, init);
      Regroup(LvCat(a), LvCat(init), Prepended(last));
    }
  }

  lemma {:induction false} LebOfSmall(n: nat)
    ensures |Leb128(n)| == 1 <==> n < 128
  {
  }
}
