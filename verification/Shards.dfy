// Which shards a node publishes into, the hash inputs that name a shard, and the time window in which a
// published ad can be found (src/swarm/dht/mod.rs, src/swarm/peers.rs:145-176).

module Shards {
  import opened Bytes

  const DHT_SHARD_COUNT: nat := 16
  const DHT_REPLICA_COUNT: nat := 2

  const KEY_PREFIX: string := "tonic-iroh-transport:dht:key:v2:"
  const SALT_PREFIX: string := "tonic-iroh-transport:dht:salt:v2:"
  const SHARDS_PREFIX: string := "tonic-iroh-transport:dht:shards:v3:"

  /** The bytes of an ASCII literal. */
  function Ascii(s: string): (r: seq<Byte>)
    ensures |r| == |s|
    ensures forall i :: 0 <= i < |s| ==> r[i] == s[i] as int % 256
  {
    seq(|s|, i requires 0 <= i < |s| => s[i] as int % 256)
  }

  function LittleEndian(n: nat, width: nat): (r: seq<Byte>)
    ensures |r| == width
  {
    if width == 0 then [] else [n % 256] + LittleEndian(n / 256, width - 1)
  }

  function Pow256(width: nat): (r: nat)
    ensures r > 0
  {
    if width == 0 then 1 else 256 * Pow256(width - 1)
  }

  /** The number that bytes stand for, the first byte being the lowest. */
  function LittleEndianValue(s: seq<Byte>): nat {
    if s == [] then 0 else s[0] + 256 * LittleEndianValue(s[1..])
  }

  lemma {:induction false} LittleEndianIsValue(n: nat, width: nat)
    requires n < Pow256(width)
    ensures LittleEndianValue(LittleEndian(n, width)) == n
  {
    if width > 0 {
      LittleEndianIsValue(n / 256, width - 1);
    }
  }

  lemma LittleEndianInjective(m: nat, n: nat, width: nat)
    requires m < Pow256(width) && n < Pow256(width) && LittleEndian(m, width) == LittleEndian(n, width)
    ensures m == n
  {
    LittleEndianIsValue(m, width);
    LittleEndianIsValue(n, width);
  }

  // ---------------------------------------------------------------------------
  // Hash inputs
  // ---------------------------------------------------------------------------

  function Preimage(prefix: string, alpn: seq<Byte>, minute: U64, shard: Byte): seq<Byte> {
    Ascii(prefix) + alpn + LittleEndian(minute, 8) + [shard]
  }

  function KeyPreimage(alpn: seq<Byte>, minute: U64, shard: Byte): seq<Byte> {
    Preimage(KEY_PREFIX, alpn, minute, shard)
  }

  function SaltPreimage(alpn: seq<Byte>, minute: U64, shard: Byte): seq<Byte> {
    Preimage(SALT_PREFIX, alpn, minute, shard)
  }

  function RankPreimage(node: NodeId, alpn: seq<Byte>, shard: Byte): seq<Byte> {
    Ascii(SHARDS_PREFIX) + node + alpn + [shard]
  }

  /** Each hash input names one service, minute and shard, although the service name has no length prefix. */
  lemma PreimageInjective(prefix: string, alpn1: seq<Byte>, minute1: U64, shard1: Byte,
                          alpn2: seq<Byte>, minute2: U64, shard2: Byte)
    requires Preimage(prefix, alpn1, minute1, shard1) == Preimage(prefix, alpn2, minute2, shard2)
    ensures alpn1 == alpn2 && minute1 == minute2 && shard1 == shard2
  {
    var (p, n1, n2) := (Ascii(prefix), |alpn1|, |alpn2|);
    var (x, y) := (Preimage(prefix, alpn1, minute1, shard1), Preimage(prefix, alpn2, minute2, shard2));
    assert n1 == n2;
    assert x[|p|..|p| + n1] == alpn1 && y[|p|..|p| + n2] == alpn2;
    assert x[|p| + n1..|p| + n1 + 8] == LittleEndian(minute1, 8)
        && y[|p| + n2..|p| + n2 + 8] == LittleEndian(minute2, 8);
    assert x[|x| - 1] == shard1 && y[|y| - 1] == shard2;
    SixtyFourBits();
    LittleEndianInjective(minute1, minute2, 8);
  }

  lemma SixtyFourBits()
    ensures Pow256(8) == U64_LIMIT
  {
    assert Pow256(4) == 256 * 256 * 256 * 256;
    assert Pow256(6) == Pow256(4) * 256 * 256;
    assert Pow256(8) == Pow256(6) * 256 * 256;
  }

  lemma RankPreimageInjective(node1: NodeId, alpn1: seq<Byte>, shard1: Byte, node2: NodeId, alpn2: seq<Byte>,
                              shard2: Byte)
    requires RankPreimage(node1, alpn1, shard1) == RankPreimage(node2, alpn2, shard2)
    ensures node1 == node2 && alpn1 == alpn2 && shard1 == shard2
  {
    var p := |SHARDS_PREFIX|;
    var (x, y) := (RankPreimage(node1, alpn1, shard1), RankPreimage(node2, alpn2, shard2));
    assert x[p..p + 32] == node1 && y[p..p + 32] == node2;
    assert x[p + 32..|x| - 1] == alpn1 && y[p + 32..|y| - 1] == alpn2;
    assert x[|x| - 1] == shard1 && y[|y| - 1] == shard2;
  }

  /** The three uses of the hash never share an input. */
  lemma PreimagesDisjoint(alpn1: seq<Byte>, minute1: U64, shard1: Byte, alpn2: seq<Byte>, minute2: U64, shard2: Byte,
                          node: NodeId, alpn3: seq<Byte>, shard3: Byte)
    ensures KeyPreimage(alpn1, minute1, shard1) != SaltPreimage(alpn2, minute2, shard2)
    ensures KeyPreimage(alpn1, minute1, shard1) != RankPreimage(node, alpn3, shard3)
    ensures SaltPreimage(alpn2, minute2, shard2) != RankPreimage(node, alpn3, shard3)
  {
    var (k, s) := (KeyPreimage(alpn1, minute1, shard1), SaltPreimage(alpn2, minute2, shard2));
    var r := RankPreimage(node, alpn3, shard3);
    assert k[25] == 'k' as int && s[25] == 's' as int && r[25] == 's' as int;
    assert s[26] == 'a' as int && r[26] == 'h' as int;
  }

  // ---------------------------------------------------------------------------
  // Rendezvous hashing
  // ---------------------------------------------------------------------------

  type Hash = seq<Byte> -> seq<Byte>

  /** Shard `a` ranks before shard `b`: smaller hash, then smaller index. */
  predicate RanksBefore(hash: Hash, node: NodeId, alpn: seq<Byte>, a: Byte, b: Byte) {
    var (ha, hb) := (hash(RankPreimage(node, alpn, a)), hash(RankPreimage(node, alpn, b)));
    LexLess(ha, hb) || (ha == hb && a < b)
  }

  /** By bytes: the hash of shard `a` is below that of shard `b` at the first byte where they differ, or they
      are equal and `a` is the smaller index. */
  ghost predicate HashesBelow(hash: Hash, node: NodeId, alpn: seq<Byte>, a: Byte, b: Byte) {
    var (ha, hb) := (hash(Ascii(SHARDS_PREFIX) + node + alpn + [a]), hash(Ascii(SHARDS_PREFIX) + node + alpn + [b]));
    Below(ha, hb) || (ha == hb && a < b)
  }

  lemma RanksByHash(hash: Hash, node: NodeId, alpn: seq<Byte>, a: Byte, b: Byte)
    ensures RanksBefore(hash, node, alpn, a, b) <==> HashesBelow(hash, node, alpn, a, b)
  {
    LexLessIsBelow(hash(RankPreimage(node, alpn, a)), hash(RankPreimage(node, alpn, b)));
  }

  lemma RankIsTotal(hash: Hash, node: NodeId, alpn: seq<Byte>, a: Byte, b: Byte)
    ensures RanksBefore(hash, node, alpn, a, b) || a == b || RanksBefore(hash, node, alpn, b, a)
    ensures !(RanksBefore(hash, node, alpn, a, b) && RanksBefore(hash, node, alpn, b, a))
    ensures !RanksBefore(hash, node, alpn, a, a)
  {
    LexTrichotomy(hash(RankPreimage(node, alpn, a)), hash(RankPreimage(node, alpn, b)));
    LexTrichotomy(hash(RankPreimage(node, alpn, a)), hash(RankPreimage(node, alpn, a)));
  }

  lemma RankIsTransitive(hash: Hash, node: NodeId, alpn: seq<Byte>, a: Byte, b: Byte, c: Byte)
    requires RanksBefore(hash, node, alpn, a, b) && RanksBefore(hash, node, alpn, b, c)
    ensures RanksBefore(hash, node, alpn, a, c)
  {
    var (ha, hb) := (hash(RankPreimage(node, alpn, a)), hash(RankPreimage(node, alpn, b)));
    var hc := hash(RankPreimage(node, alpn, c));
    if LexLess(ha, hb) && LexLess(hb, hc) {
      LexTransitive(ha, hb, hc);
    }
  }

  /** Insertion into a ranked list. */
  function InsertRanked(hash: Hash, node: NodeId, alpn: seq<Byte>, ranked: seq<Byte>, shard: Byte): (r: seq<Byte>)
    ensures |r| == |ranked| + 1
    ensures forall x: Byte :: x in r <==> x in ranked || x == shard
  {
    if ranked == [] then [shard]
    else if RanksBefore(hash, node, alpn, shard, ranked[0]) then [shard] + ranked
    else [ranked[0]] + InsertRanked(hash, node, alpn, ranked[1..], shard)
  }

  /** Shards 0 to n - 1 in rank order. */
  function Ranked(hash: Hash, node: NodeId, alpn: seq<Byte>, n: nat): (r: seq<Byte>)
    requires n <= 256
    ensures |r| == n
    ensures forall x: Byte :: x in r <==> x < n
  {
    if n == 0 then [] else InsertRanked(hash, node, alpn, Ranked(hash, node, alpn, n - 1), n - 1)
  }

  function Min(a: nat, b: nat): nat {
    if a < b then a else b
  }

  function ReplicaShards(hash: Hash, node: NodeId, alpn: seq<Byte>, shardCount: nat, replicaCount: nat): seq<Byte>
    requires shardCount <= 255
  {
    Ranked(hash, node, alpn, shardCount)[..Min(replicaCount, shardCount)]
  }

  /** The shards a node publishes a service into. */
  function NodeShards(hash: Hash, node: NodeId, alpn: seq<Byte>): seq<Byte> {
    ReplicaShards(hash, node, alpn, DHT_SHARD_COUNT, DHT_REPLICA_COUNT)
  }

  ghost predicate InRankOrder(hash: Hash, node: NodeId, alpn: seq<Byte>, s: seq<Byte>) {
    forall i, j :: 0 <= i < j < |s| ==> RanksBefore(hash, node, alpn, s[i], s[j])
  }

  lemma {:induction false} InsertKeepsOrder(hash: Hash, node: NodeId, alpn: seq<Byte>, ranked: seq<Byte>, shard: Byte)
    requires InRankOrder(hash, node, alpn, ranked) && shard !in ranked
    ensures InRankOrder(hash, node, alpn, InsertRanked(hash, node, alpn, ranked, shard))
  {
    if ranked != [] {
      RankIsTotal(hash, node, alpn, shard, ranked[0]);
      if RanksBefore(hash, node, alpn, shard, ranked[0]) {
        forall j | 0 <= j < |ranked| ensures RanksBefore(hash, node, alpn, shard, ranked[j]) {
          if j > 0 {
            RankIsTransitive(hash, node, alpn, shard, ranked[0], ranked[j]);
          }
        }
      } else {
        var rest := InsertRanked(hash, node, alpn, ranked[1..], shard);
        InsertKeepsOrder(hash, node, alpn, ranked[1..], shard);
        forall j | 0 <= j < |rest| ensures RanksBefore(hash, node, alpn, ranked[0], rest[j]) {
          assert rest[j] in rest;
        }
      }
    }
  }

  lemma {:induction false} RankedInOrder(hash: Hash, node: NodeId, alpn: seq<Byte>, n: nat)
    requires n <= 256
    ensures InRankOrder(hash, node, alpn, Ranked(hash, node, alpn, n))
  {
    if n > 0 {
      RankedInOrder(hash, node, alpn, n - 1);
      InsertKeepsOrder(hash, node, alpn, Ranked(hash, node, alpn, n - 1), n - 1);
    }
  }

  /** The choice is the min(k, n) best-ranked shards: distinct, below n, each ranked before every shard
      that is not chosen. */
  lemma ChoiceIsBestRanked(hash: Hash, node: NodeId, alpn: seq<Byte>, n: nat, k: nat)
    requires n <= 255
    ensures var chosen := ReplicaShards(hash, node, alpn, n, k);
            && |chosen| == (if k < n then k else n)
            && InRankOrder(hash, node, alpn, chosen)
            && (forall i, j :: 0 <= i < j < |chosen| ==> chosen[i] != chosen[j])
            && (forall x: Byte :: x in chosen ==> x < n)
            && (forall x: Byte, y: Byte :: x in chosen && y < n && y !in chosen ==> HashesBelow(hash, node, alpn, x, y))
            && (forall i, j :: 0 <= i < j < |chosen| ==> HashesBelow(hash, node, alpn, chosen[i], chosen[j]))
  {
    var ranked := Ranked(hash, node, alpn, n);
    var chosen := ReplicaShards(hash, node, alpn, n, k);
    RankedInOrder(hash, node, alpn, n);
    forall i, j | 0 <= i < j < |chosen| ensures chosen[i] != chosen[j] {
      RankIsTotal(hash, node, alpn, chosen[i], chosen[i]);
    }
    assert forall m :: 0 <= m < |chosen| ==> ranked[m] == chosen[m] && chosen[m] in chosen;
    forall x: Byte | x in chosen ensures x < n {
      assert x in ranked;
    }
    forall i, j | 0 <= i < j < |chosen| ensures HashesBelow(hash, node, alpn, chosen[i], chosen[j]) {
      RanksByHash(hash, node, alpn, chosen[i], chosen[j]);
    }
    forall x: Byte, y: Byte | x in chosen && y < n && y !in chosen ensures HashesBelow(hash, node, alpn, x, y) {
      RanksByHash(hash, node, alpn, x, y);
      var i :| 0 <= i < |chosen| && chosen[i] == x;
      assert y in ranked;
      var j :| 0 <= j < |ranked| && ranked[j] == y;
    }
  }

  /** Every node publishes into two different shards of the sixteen that resolvers ask. */
  lemma NodeHasTwoShards(hash: Hash, node: NodeId, alpn: seq<Byte>)
    ensures var s := NodeShards(hash, node, alpn); |s| == 2 && s[0] != s[1] && s[0] < 16 && s[1] < 16
  {
    ChoiceIsBestRanked(hash, node, alpn, DHT_SHARD_COUNT, DHT_REPLICA_COUNT);
    var s := NodeShards(hash, node, alpn);
    assert s[0] in s && s[1] in s;
  }

  /** Asking for fewer replicas gives a prefix. */
  lemma FewerReplicasIsPrefix(hash: Hash, node: NodeId, alpn: seq<Byte>, n: nat, j: nat, k: nat)
    requires n <= 255 && j <= k
    ensures ReplicaShards(hash, node, alpn, n, j) <= ReplicaShards(hash, node, alpn, n, k)
  {
  }

  /** `before` with `shard` put in at `i` and its last member pushed out. */
  function PushedIn(before: seq<Byte>, shard: Byte, i: nat): seq<Byte>
    requires i < |before|
  {
    before[..i] + [shard] + before[i..|before| - 1]
  }

  ghost predicate SameOrPushedIn(before: seq<Byte>, after: seq<Byte>, shard: Byte) {
    after == before || exists i :: 0 <= i < |before| && after == PushedIn(before, shard, i)
  }

  lemma PushedIntoTail(head: Byte, before: seq<Byte>, after: seq<Byte>, shard: Byte)
    requires SameOrPushedIn(before, after, shard)
    ensures SameOrPushedIn([head] + before, [head] + after, shard)
  {
    if i :| 0 <= i < |before| && after == PushedIn(before, shard, i) {
      assert [head] + after == PushedIn([head] + before, shard, i + 1);
    }
  }

  lemma {:induction false} InsertedPrefix(hash: Hash, node: NodeId, alpn: seq<Byte>, ranked: seq<Byte>, shard: Byte,
      k: nat)
    requires k <= |ranked|
    ensures SameOrPushedIn(ranked[..k], InsertRanked(hash, node, alpn, ranked, shard)[..k], shard)
  {
    hide RanksBefore;
    var after := InsertRanked(hash, node, alpn, ranked, shard)[..k];
    if k > 0 {
      if RanksBefore(hash, node, alpn, shard, ranked[0]) {
        assert after == PushedIn(ranked[..k], shard, 0);
      } else {
        hide SameOrPushedIn, InsertRanked;
        var tail := InsertRanked(hash, node, alpn, ranked[1..], shard)[..k - 1];
        InsertedPrefix(hash, node, alpn, ranked[1..], shard, k - 1);
        PushedIntoTail(ranked[0], ranked[1..][..k - 1], tail, shard);
        assert after == [ranked[0]] + tail && ranked[..k] == [ranked[0]] + ranked[1..][..k - 1];
      }
    }
  }

  /** Adding a shard moves at most one replica: the choice stays, or the new shard enters and exactly the
      last-ranked member leaves. */
  lemma AddingShardMovesAtMostOne(hash: Hash, node: NodeId, alpn: seq<Byte>, n: nat, k: nat)
    requires k <= n < 255
    ensures SameOrPushedIn(ReplicaShards(hash, node, alpn, n, k), ReplicaShards(hash, node, alpn, n + 1, k), n)
  {
    InsertedPrefix(hash, node, alpn, Ranked(hash, node, alpn, n), n, k);
  }
}

module Window {
  import opened Bytes
  import opened Record
  import opened Publisher

  /** `apply_minute_offset`. */
  function ApplyMinuteOffset(minute: U64, offset: int): U64
    requires -0x8000_0000_0000_0000 <= offset < 0x8000_0000_0000_0000
  {
    if offset >= 0 then SaturatingAdd(minute, offset)
    else if minute + offset >= 0 then minute + offset
    else 0
  }

  /** The offset is added, within the range of 64 bits. */
  lemma OffsetIsClamped(minute: U64, offset: int)
    requires -0x8000_0000_0000_0000 <= offset < 0x8000_0000_0000_0000
    ensures var m := ApplyMinuteOffset(minute, offset);
            && (0 <= minute + offset <= U64_MAX ==> m == minute + offset)
            && (minute + offset < 0 ==> m == 0)
            && (minute + offset > U64_MAX ==> m == U64_MAX)
  {
  }

  /** The minutes the initial burst of the feed asks for. Each of the two reads the clock anew, the second
      when the queries for the first are done. The periodic poll asks only for the current minute. */
  function BurstMinutes(first: U64, second: U64): seq<U64> {
    [ApplyMinuteOffset(first / 60, 0), ApplyMinuteOffset(second / 60, -1)]
  }

  lemma BurstAsksFor(first: U64, second: U64, minute: U64)
    ensures minute in BurstMinutes(first, second) <==>
            minute == first / 60 || minute == if second >= 60 then second / 60 - 1 else 0
  {
    var m := BurstMinutes(first, second);
    assert m[0] == first / 60 && m[1] == if second >= 60 then second / 60 - 1 else 0;
  }

  /** Ads up to a minute old when the burst starts are all in a bucket it asks for, exactly when the clock
      does not reach the next minute between its two readings (or is still in its very first minute). */
  lemma BurstCoversOneMinute(first: U64, second: U64)
    requires first <= second
    ensures (forall published: U64 :: published <= first <= published + 60 ==>
            published / 60 in BurstMinutes(first, second))
       <==> first < 60 || first / 60 == second / 60
  {
    forall published: U64 | published <= first <= published + 60 && (first < 60 || first / 60 == second / 60)
      ensures published / 60 in BurstMinutes(first, second)
    {
      BurstAsksFor(first, second, published / 60);
      assert published / 60 == first / 60 || published / 60 == first / 60 - 1;
    }
    if first >= 60 && first / 60 != second / 60 {
      var published: U64 := first - 60;
      BurstAsksFor(first, second, published / 60);
      assert published / 60 == first / 60 - 1 && second / 60 > first / 60;
    }
  }

  /** When it does: a burst begun at 119 and going on at 120 asks for minute 1 twice and misses the ad
      published at 59, which is exactly a minute old. */
  lemma BurstCanMissAMinute()
    ensures BurstMinutes(119, 120) == [1, 1] && 59 / 60 == 0 && 59 <= 119 <= 59 + 60
    ensures 59 / 60 !in BurstMinutes(119, 120)
  {
    assert BurstMinutes(119, 120)[0] == 1 && BurstMinutes(119, 120)[1] == 1;
  }

  /** A minute is also the most: no greater age is always covered, even within one minute of the clock. */
  lemma BurstCoversNoMore(age: U64) returns (first: U64, published: U64)
    requires 60 < age
    ensures published + age == first && published / 60 !in BurstMinutes(first, first)
  {
    first := if age < 120 then 120 else age;
    published := first - age;
    BurstAsksFor(first, first, published / 60);
    assert published / 60 == 0 && first / 60 >= 2;
  }

  /** A node that publishes every `period` seconds from `start` on has, at any time, a latest publication. */
  lemma LatestPublication(start: U64, period: U64, now: U64) returns (k: nat)
    requires 1 <= period && start <= now
    ensures start + k * period <= now < start + (k + 1) * period
  {
    var n := now - start;
    k := n / period;
    assert n == k * period + n % period;
    assert (k + 1) * period == k * period + period;
  }

  /** A node that publishes at least once a minute is in the burst's window: the minutes asked for include
      that of its latest ad exactly when that ad is of the current minute or the clock stays in that
      minute; and the ad passes the time checks of `verify` whenever the answer comes until it expires,
      so for a minute at least (short of the end of the 64-bit clock). */
  lemma PublisherStaysInWindow(start: U64, period: U64, k: nat, first: U64, second: U64, checked: U64, l: Local)
    requires 1 <= period <= 60 && start + k * period <= first < start + (k + 1) * period
    requires first <= second && first <= checked
    requires l.now == start + k * period
    ensures l.now / 60 in BurstMinutes(first, second) <==> l.now / 60 == first / 60 || first / 60 == second / 60
    ensures InWindow(LocalAd(l).ad, checked) <==> checked < SaturatingAdd(l.now, DHT_AD_TTL_SECS)
    ensures checked <= first + 60 && checked < U64_MAX ==> InWindow(LocalAd(l).ad, checked)
  {
    assert (k + 1) * period == k * period + period;
    BurstAsksFor(first, second, l.now / 60);
    assert first - 60 < l.now <= first;
  }
}
