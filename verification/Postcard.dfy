// Bytes, their lexicographic order, and the part of the postcard wire format that records use:
// LEB128 varints, length prefixes, raw fixed-size arrays. Each encoder has its decoder, and every
// decoder returns what was encoded together with the untouched rest.

module Bytes {
  const U64_LIMIT: nat := 0x1_0000_0000_0000_0000
  const U64_MAX: U64 := 0xFFFF_FFFF_FFFF_FFFF

  type Byte = x: int | 0 <= x < 256
  type U64 = x: int | 0 <= x < U64_LIMIT

  /** A byte string whose length a `usize` can hold. */
  type Blob = s: seq<Byte> | |s| < U64_LIMIT

  type NodeId = s: seq<Byte> | |s| == 32 witness seq(32, _ => 0)
  type Signature = s: seq<Byte> | |s| == 64 witness seq(64, _ => 0)

  function SaturatingAdd(a: U64, b: U64): U64 {
    if a + b < U64_LIMIT then a + b else U64_MAX
  }

  predicate Continues(b: Byte) {
    0x80 <= b <= 0xBF
  }

  /** Well-formed UTF-8, by the byte ranges of section 4 of RFC 3629. */
  predicate Utf8(s: seq<Byte>) {
    if s == [] then true
    else if s[0] < 0x80 then Utf8(s[1..])
    else if 0xC2 <= s[0] <= 0xDF then |s| >= 2 && Continues(s[1]) && Utf8(s[2..])
    else if 0xE0 <= s[0] <= 0xEF then
      && |s| >= 3 && Continues(s[1]) && Continues(s[2])
      && (s[0] == 0xE0 ==> s[1] >= 0xA0) && (s[0] == 0xED ==> s[1] <= 0x9F)
      && Utf8(s[3..])
    else if 0xF0 <= s[0] <= 0xF4 then
      && |s| >= 4 && Continues(s[1]) && Continues(s[2]) && Continues(s[3])
      && (s[0] == 0xF0 ==> s[1] >= 0x90) && (s[0] == 0xF4 ==> s[1] <= 0x8F)
      && Utf8(s[4..])
    else false
  }

  type Tag = s: seq<Byte> | |s| < U64_LIMIT && Utf8(s)
  type Tags = t: seq<Tag> | |t| < U64_LIMIT

  /** The order of byte arrays. */
  predicate LexLess(a: seq<Byte>, b: seq<Byte>) {
    if b == [] then false
    else if a == [] then true
    else a[0] < b[0] || (a[0] == b[0] && LexLess(a[1..], b[1..]))
  }

  /** `a` is below `b` at byte `k`, the first at which they differ, or `a` ends there. */
  predicate BelowAt(a: seq<Byte>, b: seq<Byte>, k: nat) {
    && k <= |a| && k < |b| && a[..k] == b[..k]
    && (k == |a| || a[k] < b[k])
  }

  ghost predicate Below(a: seq<Byte>, b: seq<Byte>) {
    exists k :: BelowAt(a, b, k)
  }

  lemma {:induction false} LexLessIsBelow(a: seq<Byte>, b: seq<Byte>)
    ensures LexLess(a, b) <==> Below(a, b)
  {
    if b != [] && a == [] {
      assert BelowAt(a, b, 0);
    } else if b != [] {
      LexLessIsBelow(a[1..], b[1..]);
      if k :| BelowAt(a, b, k) {
        BelowInTail(a, b, k);
      }
      if a[0] < b[0] {
        assert BelowAt(a, b, 0);
      } else if a[0] == b[0] && Below(a[1..], b[1..]) {
        var k :| BelowAt(a[1..], b[1..], k);
        BelowBehind(a, b, k);
      }
    }
  }

  lemma BelowInTail(a: seq<Byte>, b: seq<Byte>, k: nat)
    requires a != [] && b != [] && BelowAt(a, b, k)
    ensures a[0] < b[0] || (a[0] == b[0] && Below(a[1..], b[1..]))
  {
    if k > 0 {
      assert a[0] == a[..k][0] && b[0] == b[..k][0];
      assert a[1..][..k - 1] == a[..k][1..] && b[1..][..k - 1] == b[..k][1..];
      assert BelowAt(a[1..], b[1..], k - 1);
    }
  }

  lemma BelowBehind(a: seq<Byte>, b: seq<Byte>, k: nat)
    requires a != [] && b != [] && a[0] == b[0] && BelowAt(a[1..], b[1..], k)
    ensures Below(a, b)
  {
    assert a[..k + 1] == [a[0]] + a[1..][..k] && b[..k + 1] == [b[0]] + b[1..][..k];
    assert BelowAt(a, b, k + 1);
  }

  lemma {:induction false} LexTrichotomy(a: seq<Byte>, b: seq<Byte>)
    ensures LexLess(a, b) || a == b || LexLess(b, a)
    ensures !(LexLess(a, b) && LexLess(b, a)) && !LexLess(a, a)
  {
    if a != [] {
      LexTrichotomy(a[1..], a[1..]);
    }
    if a != [] && b != [] {
      LexTrichotomy(a[1..], b[1..]);
      if a[0] == b[0] && a[1..] == b[1..] {
        assert a == [a[0]] + a[1..] == b;
      }
    }
  }

  lemma {:induction false} LexTransitive(a: seq<Byte>, b: seq<Byte>, c: seq<Byte>)
    requires LexLess(a, b) && LexLess(b, c)
    ensures LexLess(a, c)
  {
    if a != [] && a[0] == b[0] && b[0] == c[0] {
      LexTransitive(a[1..], b[1..], c[1..]);
    }
  }
}

module Postcard {
  import opened Wrappers
  import opened Bytes

  // ---------------------------------------------------------------------------
  // Varints
  // ---------------------------------------------------------------------------

  function Varint(n: nat): (r: seq<Byte>)
    ensures |r| >= 1
  {
    if n < 128 then [n] else [n % 128 + 128] + Varint(n / 128)
  }

  /** What bytes `k` to 9 of a 64-bit varint can carry. */
  function Capacity(k: nat): (r: nat)
    requires k <= 9
    ensures r >= 2
    decreases 9 - k
  {
    if k == 9 then 2 else 128 * Capacity(k + 1)
  }

  /** Byte `k` of a varint and what follows it; the tenth byte is the last and may only be 0 or 1. */
  function VarintFrom(b: seq<Byte>, k: nat): (r: Option<(nat, seq<Byte>)>)
    requires k <= 9
    ensures r.Some? ==> r.value.0 < Capacity(k)
    decreases 9 - k
  {
    if b == [] then None
    else if k == 9 then if b[0] <= 1 then Some((b[0], b[1..])) else None
    else if b[0] < 128 then Some((b[0], b[1..]))
    else
      match VarintFrom(b[1..], k + 1)
      case None => None
      case Some((n, rest)) => Some((b[0] - 128 + 128 * n, rest))
  }

  function TakeVarint(b: seq<Byte>): Option<(U64, seq<Byte>)> {
    assert Capacity(0) == U64_LIMIT by { CapacityIs64Bits(); }
    match VarintFrom(b, 0)
    case None => None
    case Some((n, rest)) => Some((n, rest))
  }

  lemma CapacityIs64Bits()
    ensures Capacity(0) == U64_LIMIT
  {
    assert Capacity(7) == 2 * 128 * 128;
    assert Capacity(4) == Capacity(7) * 128 * 128 * 128;
    assert Capacity(1) == Capacity(4) * 128 * 128 * 128;
  }

  lemma {:induction false} VarintFromRoundTrip(n: nat, k: nat, rest: seq<Byte>)
    requires k <= 9 && n < Capacity(k)
    ensures VarintFrom(Varint(n) + rest, k) == Some((n, rest))
    decreases 9 - k
  {
    var b := Varint(n) + rest;
    if n < 128 {
      assert b[1..] == rest;
    } else {
      assert b[1..] == Varint(n / 128) + rest;
      VarintFromRoundTrip(n / 128, k + 1, rest);
    }
  }

  lemma VarintRoundTrip(n: U64, rest: seq<Byte>)
    ensures TakeVarint(Varint(n) + rest) == Some((n, rest))
  {
    CapacityIs64Bits();
    VarintFromRoundTrip(n, 0, rest);
  }

  /** The number that base-128 digits stand for, the first byte holding the lowest seven bits. */
  function Base128(b: seq<Byte>): nat {
    if b == [] then 0 else b[0] % 128 + 128 * Base128(b[1..])
  }

  /** A varint is the base-128 form of its number, every byte but the last marked by its top bit, and it has no
      leading zero digit. */
  lemma {:induction false} VarintIsLeb128(n: nat)
    ensures var b := Varint(n);
            && Base128(b) == n
            && (forall i :: 0 <= i < |b| ==> (b[i] >= 128 <==> i < |b| - 1))
            && (|b| > 1 ==> b[|b| - 1] != 0)
  {
    if n >= 128 {
      VarintIsLeb128(n / 128);
      var (b, rest) := (Varint(n), Varint(n / 128));
      assert b[1..] == rest;
      forall i | 0 <= i < |b| ensures b[i] >= 128 <==> i < |b| - 1 {
        if i > 0 {
          assert b[i] == rest[i - 1];
        }
      }
    }
  }

  /** Shorter numbers have no longer varints. */
  lemma {:induction false} VarintMonotone(m: nat, n: nat)
    requires m <= n
    ensures |Varint(m)| <= |Varint(n)|
  {
    if m >= 128 {
      VarintMonotone(m / 128, n / 128);
    }
  }

  // ---------------------------------------------------------------------------
  // Byte strings, fixed arrays, strings and lists of strings
  // ---------------------------------------------------------------------------

  function Take(n: nat, b: seq<Byte>): (r: Option<(seq<Byte>, seq<Byte>)>)
    ensures r.Some? ==> |r.value.0| == n && b == r.value.0 + r.value.1
  {
    if |b| < n then None else Some((b[..n], b[n..]))
  }

  lemma TakeRoundTrip(s: seq<Byte>, rest: seq<Byte>)
    ensures Take(|s|, s + rest) == Some((s, rest))
  {
    assert (s + rest)[..|s|] == s && (s + rest)[|s|..] == rest;
  }

  function BlobBytes(s: Blob): seq<Byte> {
    Varint(|s|) + s
  }

  function TakeBlob(b: seq<Byte>): Option<(Blob, seq<Byte>)> {
    match TakeVarint(b)
    case None => None
    case Some((n, rest)) =>
      match Take(n, rest)
      case None => None
      case Some((s, rest')) => Some((s, rest'))
  }

  lemma BlobRoundTrip(s: Blob, rest: seq<Byte>)
    ensures TakeBlob(BlobBytes(s) + rest) == Some((s, rest))
  {
    assert BlobBytes(s) + rest == Varint(|s|) + (s + rest);
    VarintRoundTrip(|s|, s + rest);
    TakeRoundTrip(s, rest);
  }

  function TagListBytes(tags: seq<Tag>): seq<Byte> {
    if tags == [] then [] else BlobBytes(tags[0]) + TagListBytes(tags[1..])
  }

  function TagsBytes(tags: Tags): seq<Byte> {
    Varint(|tags|) + TagListBytes(tags)
  }

  function TakeTagList(n: nat, b: seq<Byte>): (r: Option<(seq<Tag>, seq<Byte>)>)
    ensures r.Some? ==> |r.value.0| == n
  {
    if n == 0 then Some(([], b))
    else
      match TakeBlob(b)
      case None => None
      case Some((s, rest)) =>
        if !Utf8(s) then None
        else
          match TakeTagList(n - 1, rest)
          case None => None
          case Some((tags, rest')) => Some(([s] + tags, rest'))
  }

  function TakeTags(b: seq<Byte>): Option<(Tags, seq<Byte>)> {
    match TakeVarint(b)
    case None => None
    case Some((n, rest)) =>
      match TakeTagList(n, rest)
      case None => None
      case Some((tags, rest')) => Some((tags, rest'))
  }

  lemma {:induction false} TagListRoundTrip(tags: seq<Tag>, rest: seq<Byte>)
    ensures TakeTagList(|tags|, TagListBytes(tags) + rest) == Some((tags, rest))
  {
    if tags == [] {
      assert TagListBytes(tags) + rest == rest;
    } else {
      var more := TagListBytes(tags[1..]) + rest;
      assert TagListBytes(tags) + rest == BlobBytes(tags[0]) + more;
      BlobRoundTrip(tags[0], more);
      TagListRoundTrip(tags[1..], rest);
      assert [tags[0]] + tags[1..] == tags;
    }
  }

  lemma TagsRoundTrip(tags: Tags, rest: seq<Byte>)
    ensures TakeTags(TagsBytes(tags) + rest) == Some((tags, rest))
  {
    assert TagsBytes(tags) + rest == Varint(|tags|) + (TagListBytes(tags) + rest);
    VarintRoundTrip(|tags|, TagListBytes(tags) + rest);
    TagListRoundTrip(tags, rest);
  }
}
