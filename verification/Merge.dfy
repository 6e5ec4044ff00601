// The order on ads, merging as a per-node join, and its canonical result
// (src/swarm/record.rs:131-180, 236-259).

module AdOrder {
  import opened Wrappers
  import opened Bytes
  import opened Record

  datatype Key = Key(publishedAt: U64, expiresAt: U64, nodeId: NodeId)

  function AdKey(s: SignedServiceAd): Key {
    Key(s.ad.publishedAt, s.ad.expiresAt, s.ad.nodeId)
  }

  /** Newer first, then later expiry first, then by node id. */
  predicate KeyLess(a: Key, b: Key) {
    || a.publishedAt > b.publishedAt
    || (a.publishedAt == b.publishedAt
        && (a.expiresAt > b.expiresAt || (a.expiresAt == b.expiresAt && LexLess(a.nodeId, b.nodeId))))
  }

  predicate Precedes(a: SignedServiceAd, b: SignedServiceAd) {
    KeyLess(AdKey(a), AdKey(b))
  }

  /** No older: published later, or at the same time and expiring no earlier. */
  predicate NoOlder(a: ServiceAd, b: ServiceAd) {
    b.publishedAt < a.publishedAt || (b.publishedAt == a.publishedAt && b.expiresAt <= a.expiresAt)
  }

  /** The order of a merged list: by publication and expiry, latest first, then by the bytes of the node id. */
  ghost predicate ListedBefore(a: ServiceAd, b: ServiceAd) {
    || b.publishedAt < a.publishedAt
    || (b.publishedAt == a.publishedAt && b.expiresAt < a.expiresAt)
    || (b.publishedAt == a.publishedAt && b.expiresAt == a.expiresAt && Below(a.nodeId, b.nodeId))
  }

  /** What the sort key means for the fields of the ads. */
  lemma PrecedesByFields(a: SignedServiceAd, b: SignedServiceAd)
    ensures Precedes(a, b) <==> ListedBefore(a.ad, b.ad)
    ensures a.ad.nodeId == b.ad.nodeId ==> (!Precedes(b, a) <==> NoOlder(a.ad, b.ad))
  {
    LexLessIsBelow(a.ad.nodeId, b.ad.nodeId);
    LexTrichotomy(a.ad.nodeId, a.ad.nodeId);
  }

  lemma KeyTrichotomy(a: Key, b: Key)
    ensures KeyLess(a, b) || a == b || KeyLess(b, a)
    ensures !(KeyLess(a, b) && KeyLess(b, a)) && !KeyLess(a, a)
  {
    LexTrichotomy(a.nodeId, b.nodeId);
    LexTrichotomy(a.nodeId, a.nodeId);
  }

  lemma KeyTransitive(a: Key, b: Key, c: Key)
    requires KeyLess(a, b) && KeyLess(b, c)
    ensures KeyLess(a, c)
  {
    if LexLess(a.nodeId, b.nodeId) && LexLess(b.nodeId, c.nodeId) {
      LexTransitive(a.nodeId, b.nodeId, c.nodeId);
    }
  }

  /** Not preceding is transitive too. */
  lemma NotLessTransitive(a: Key, b: Key, c: Key)
    requires !KeyLess(b, a) && !KeyLess(c, b)
    ensures !KeyLess(c, a)
    ensures KeyLess(a, b) || KeyLess(b, c) ==> KeyLess(a, c)
  {
    KeyTrichotomy(a, b);
    KeyTrichotomy(b, c);
    KeyTrichotomy(a, c);
    if KeyLess(a, b) && KeyLess(b, c) {
      KeyTransitive(a, b, c);
    }
  }

  // ---------------------------------------------------------------------------
  // The stable sort
  // ---------------------------------------------------------------------------

  predicate Deprioritized(s: SignedServiceAd, preferred: Option<NodeId>) {
    preferred.Some? && s.ad.nodeId != preferred.value
  }

  /** The order of `preferred_ad_sort_key`; without a preferred node it is `Precedes`. */
  predicate Before(a: SignedServiceAd, b: SignedServiceAd, preferred: Option<NodeId>) {
    || (!Deprioritized(a, preferred) && Deprioritized(b, preferred))
    || (Deprioritized(a, preferred) == Deprioritized(b, preferred) && Precedes(a, b))
  }

  function Insert(s: seq<SignedServiceAd>, x: SignedServiceAd, preferred: Option<NodeId>): (r: seq<SignedServiceAd>)
    ensures multiset(r) == multiset(s) + multiset{x}
    ensures |r| == |s| + 1
  {
    if s == [] then [x]
    else
      assert s == s[..|s| - 1] + [s[|s| - 1]];
      if Before(x, s[|s| - 1], preferred)
      then Insert(s[..|s| - 1], x, preferred) + [s[|s| - 1]]
      else s + [x]
  }

  /** A stable sort: equal elements keep their order. */
  function Sort(s: seq<SignedServiceAd>, preferred: Option<NodeId>): (r: seq<SignedServiceAd>)
    ensures multiset(r) == multiset(s)
    ensures |r| == |s|
  {
    if s == [] then []
    else
      assert s == s[..|s| - 1] + [s[|s| - 1]];
      Insert(Sort(s[..|s| - 1], preferred), s[|s| - 1], preferred)
  }

  ghost predicate Sorted(s: seq<SignedServiceAd>, preferred: Option<NodeId>) {
    forall i, j :: 0 <= i < j < |s| ==> !Before(s[j], s[i], preferred)
  }

  lemma NotBeforeTransitive(a: SignedServiceAd, b: SignedServiceAd, c: SignedServiceAd, preferred: Option<NodeId>)
    requires !Before(b, a, preferred) && !Before(c, b, preferred)
    ensures !Before(c, a, preferred)
  {
    if !Precedes(b, a) && !Precedes(c, b) {
      NotLessTransitive(AdKey(a), AdKey(b), AdKey(c));
    }
  }

  lemma BeforeAsymmetric(a: SignedServiceAd, b: SignedServiceAd, preferred: Option<NodeId>)
    ensures !(Before(a, b, preferred) && Before(b, a, preferred))
    ensures Before(a, b, preferred) || Before(b, a, preferred) || AdKey(a) == AdKey(b)
  {
    KeyTrichotomy(AdKey(a), AdKey(b));
  }

  lemma InMultiset(s: seq<SignedServiceAd>, t: seq<SignedServiceAd>)
    requires multiset(s) == multiset(t)
    ensures forall x :: x in s <==> x in t
  {
    forall x ensures x in s <==> x in t {
      assert x in s <==> x in multiset(s);
      assert x in t <==> x in multiset(t);
    }
  }

  lemma {:induction false} InsertSorts(s: seq<SignedServiceAd>, x: SignedServiceAd, preferred: Option<NodeId>)
    requires Sorted(s, preferred)
    ensures Sorted(Insert(s, x, preferred), preferred)
  {
    if s != [] {
      var (init, last) := (s[..|s| - 1], s[|s| - 1]);
      if Before(x, last, preferred) {
        InsertSorts(init, x, preferred);
        var t := Insert(init, x, preferred);
        BeforeAsymmetric(x, last, preferred);
        assert multiset(t) == multiset(init + [x]);
        InMultiset(t, init + [x]);
        forall i | 0 <= i < |t| ensures !Before(last, t[i], preferred) {
          assert t[i] in init + [x];
        }
      } else {
        forall i | 0 <= i < |s| ensures !Before(x, s[i], preferred) {
          if i < |s| - 1 {
            NotBeforeTransitive(s[i], last, x, preferred);
          }
        }
      }
    }
  }

  lemma {:induction false} SortSorts(s: seq<SignedServiceAd>, preferred: Option<NodeId>)
    ensures Sorted(Sort(s, preferred), preferred)
    ensures forall x :: x in Sort(s, preferred) <==> x in s
  {
    if s != [] {
      SortSorts(s[..|s| - 1], preferred);
      InsertSorts(Sort(s[..|s| - 1], preferred), s[|s| - 1], preferred);
    }
    InMultiset(Sort(s, preferred), s);
  }
}

module Merge {
  import opened Wrappers
  import opened Bytes
  import opened Record
  import opened AdOrder

  // ---------------------------------------------------------------------------
  // The best ad of each node
  // ---------------------------------------------------------------------------

  /** The ads that take part in a merge: those that verify, from buckets of the current version. */
  function ValidAds(ads: seq<SignedServiceAd>, scheme: Scheme, ns: Namespace, now: U64): (r: seq<SignedServiceAd>)
    ensures forall s :: s in r <==> s in ads && Verify(scheme, ns, now, s)
  {
    if ads == [] then []
    else
      var last := ads[|ads| - 1];
      ValidAds(ads[..|ads| - 1], scheme, ns, now) + if Verify(scheme, ns, now, last) then [last] else []
  }

  function Candidates(buckets: seq<Bucket>, scheme: Scheme, ns: Namespace, now: U64): seq<SignedServiceAd> {
    if buckets == [] then []
    else
      var last := buckets[|buckets| - 1];
      Candidates(buckets[..|buckets| - 1], scheme, ns, now)
      + if last.version == DHT_BUCKET_VERSION then ValidAds(last.ads, scheme, ns, now) else []
  }

  function Better(x: Option<SignedServiceAd>, y: Option<SignedServiceAd>): Option<SignedServiceAd> {
    if y.None? then x
    else if x.None? || Precedes(y.value, x.value) then y
    else x
  }

  /** The first of the candidates of node `n` that no other one precedes. */
  function Best(cs: seq<SignedServiceAd>, n: NodeId): Option<SignedServiceAd> {
    if cs == [] then None
    else
      var last := cs[|cs| - 1];
      Better(Best(cs[..|cs| - 1], n), if last.ad.nodeId == n then Some(last) else None)
  }

  lemma {:induction false} BestIsBest(cs: seq<SignedServiceAd>, n: NodeId)
    ensures Best(cs, n).None? <==> forall c :: c in cs ==> c.ad.nodeId != n
    ensures Best(cs, n).Some? ==>
              var m := Best(cs, n).value;
              m in cs && m.ad.nodeId == n && forall c :: c in cs && c.ad.nodeId == n ==> !Precedes(c, m)
  {
    if cs != [] {
      var (init, last) := (cs[..|cs| - 1], cs[|cs| - 1]);
      BestIsBest(init, n);
      assert forall c :: c in cs <==> c in init || c == last;
      KeyTrichotomy(AdKey(last), AdKey(last));
      if last.ad.nodeId == n && Best(init, n).Some? {
        var m := Best(init, n).value;
        KeyTrichotomy(AdKey(last), AdKey(m));
        forall c | c in init && c.ad.nodeId == n && Precedes(last, m) ensures !Precedes(c, last) {
          NotLessTransitive(AdKey(last), AdKey(m), AdKey(c));
          KeyTrichotomy(AdKey(last), AdKey(c));
        }
      }
    }
  }

  lemma BetterAssociative(x: Option<SignedServiceAd>, y: Option<SignedServiceAd>, z: Option<SignedServiceAd>)
    ensures Better(Better(x, y), z) == Better(x, Better(y, z))
  {
    if x.Some? && y.Some? && z.Some? {
      var (a, b, c) := (AdKey(x.value), AdKey(y.value), AdKey(z.value));
      KeyTrichotomy(a, b);
      KeyTrichotomy(b, c);
      KeyTrichotomy(a, c);
      if KeyLess(b, a) && KeyLess(c, b) { KeyTransitive(c, b, a); }
      if !KeyLess(b, a) && !KeyLess(c, b) { NotLessTransitive(a, b, c); }
    }
  }

  lemma {:induction false} BestOfConcat(a: seq<SignedServiceAd>, b: seq<SignedServiceAd>, n: NodeId)
    ensures Best(a + b, n) == Better(Best(a, n), Best(b, n))
  {
    if b == [] {
      assert a + b == a;
    } else {
      var (init, last) := (b[..|b| - 1], b[|b| - 1]);
      assert (a + b)[..|a + b| - 1] == a + init;
      BestOfConcat(a, init, n);
      BetterAssociative(Best(a, n), Best(init, n), if last.ad.nodeId == n then Some(last) else None);
    }
  }

  // ---------------------------------------------------------------------------
  // The merged list
  // ---------------------------------------------------------------------------

  ghost predicate StrictlySorted(s: seq<SignedServiceAd>) {
    forall i, j :: 0 <= i < j < |s| ==> Precedes(s[i], s[j])
  }

  /** `r` is the canonical merge of `cs`: strictly in key order, and holding exactly the best candidate
      of every node. */
  ghost predicate IsMerge(r: seq<SignedServiceAd>, cs: seq<SignedServiceAd>) {
    && StrictlySorted(r)
    && forall s :: s in r <==> Best(cs, s.ad.nodeId) == Some(s)
  }

  function Keys(s: seq<SignedServiceAd>): seq<Key> {
    seq(|s|, i requires 0 <= i < |s| => AdKey(s[i]))
  }

  ghost predicate SortedKeys(k: seq<Key>) {
    forall i, j :: 0 <= i < j < |k| ==> KeyLess(k[i], k[j])
  }

  lemma {:induction false} SortedKeysUnique(a: seq<Key>, b: seq<Key>)
    requires SortedKeys(a) && SortedKeys(b) && forall k :: k in a <==> k in b
    ensures a == b
  {
    assert b != [] ==> b[0] in b;
    if a != [] {
      assert a[0] in b;
      var i :| 0 <= i < |b| && b[i] == a[0];
      assert b[0] in a;
      var j :| 0 <= j < |a| && a[j] == b[0];
      KeyTrichotomy(a[0], b[0]);
      assert a[0] == b[0];
      forall k ensures k in a[1..] <==> k in a && k != a[0] {
        TailKeys(a, k);
      }
      forall k ensures k in b[1..] <==> k in b && k != b[0] {
        TailKeys(b, k);
      }
      SortedKeysUnique(a[1..], b[1..]);
    }
  }

  lemma TailKeys(a: seq<Key>, k: Key)
    requires a != [] && SortedKeys(a)
    ensures k in a[1..] <==> k in a && k != a[0]
  {
    KeyTrichotomy(a[0], a[0]);
    if k in a[1..] {
      var i :| 0 <= i < |a[1..]| && a[1..][i] == k;
      assert a[i + 1] == k;
    }
  }

  lemma KeysOfSorted(s: seq<SignedServiceAd>)
    requires StrictlySorted(s)
    ensures SortedKeys(Keys(s)) && forall k :: k in Keys(s) <==> exists x :: x in s && AdKey(x) == k
  {
    forall k ensures k in Keys(s) <==> exists x :: x in s && AdKey(x) == k {
      if k in Keys(s) {
        var i :| 0 <= i < |s| && Keys(s)[i] == k;
        assert s[i] in s && AdKey(s[i]) == k;
      }
      if x :| x in s && AdKey(x) == k {
        var i :| 0 <= i < |s| && s[i] == x;
        assert Keys(s)[i] == k;
      }
    }
  }

  /** The merge is determined by its membership. */
  lemma MergeUnique(r1: seq<SignedServiceAd>, r2: seq<SignedServiceAd>, c1: seq<SignedServiceAd>,
                    c2: seq<SignedServiceAd>)
    requires IsMerge(r1, c1) && IsMerge(r2, c2)
    requires forall n :: Best(c1, n) == Best(c2, n)
    ensures r1 == r2
  {
    KeysOfSorted(r1);
    KeysOfSorted(r2);
    SortedKeysUnique(Keys(r1), Keys(r2));
    forall i | 0 <= i < |r1| ensures r1[i] == r2[i] {
      assert Keys(r1)[i] == Keys(r2)[i];
      assert r1[i] in r1 && r2[i] in r2;
    }
  }

  lemma {:induction false} BestWhenUnique(cs: seq<SignedServiceAd>, m: SignedServiceAd)
    requires m in cs && forall c :: c in cs && c.ad.nodeId == m.ad.nodeId ==> c == m
    ensures Best(cs, m.ad.nodeId) == Some(m)
  {
    BestIsBest(cs, m.ad.nodeId);
  }

  /** The best of a merged list is the best of what was merged. */
  lemma BestOfMerge(r: seq<SignedServiceAd>, cs: seq<SignedServiceAd>, n: NodeId)
    requires IsMerge(r, cs)
    ensures Best(r, n) == Best(cs, n)
  {
    BestIsBest(cs, n);
    BestIsBest(r, n);
    if Best(cs, n).Some? {
      BestWhenUnique(r, Best(cs, n).value);
    }
  }

  /** One ad per node. */
  lemma MergeHasDistinctNodes(r: seq<SignedServiceAd>, cs: seq<SignedServiceAd>)
    requires IsMerge(r, cs)
    ensures DistinctNodes(r)
    ensures forall s :: s in r ==> s in cs
  {
    forall i, j | 0 <= i < j < |r| ensures r[i].ad.nodeId != r[j].ad.nodeId {
      assert r[i] in r && r[j] in r;
      KeyTrichotomy(AdKey(r[i]), AdKey(r[i]));
    }
    forall s | s in r ensures s in cs {
      BestIsBest(cs, s.ad.nodeId);
    }
  }

  ghost predicate DistinctNodes(s: seq<SignedServiceAd>) {
    forall i, j :: 0 <= i < j < |s| ==> s[i].ad.nodeId != s[j].ad.nodeId
  }

  // ---------------------------------------------------------------------------
  // merge_valid
  // ---------------------------------------------------------------------------

  ghost predicate HoldsBest(merged: map<NodeId, SignedServiceAd>, cs: seq<SignedServiceAd>) {
    forall n :: (if n in merged then Some(merged[n]) else None) == Best(cs, n)
  }

  /** One more candidate enters the map if its node is new or it precedes the ad that is there. */
  lemma OneMoreHoldsBest(merged: map<NodeId, SignedServiceAd>, cs: seq<SignedServiceAd>, ad: SignedServiceAd)
    requires HoldsBest(merged, cs)
    ensures var n := ad.ad.nodeId;
            HoldsBest(if n !in merged || Precedes(ad, merged[n]) then merged[n := ad] else merged, cs + [ad])
  {
    assert (cs + [ad])[..|cs|] == cs;
    assert Best(cs, ad.ad.nodeId) == if ad.ad.nodeId in merged then Some(merged[ad.ad.nodeId]) else None;
  }

  ghost predicate Listed(r: seq<SignedServiceAd>) {
    forall i, j :: 0 <= i < j < |r| ==> ListedBefore(r[i].ad, r[j].ad)
  }

  ghost predicate NewestOf(s: SignedServiceAd, cs: seq<SignedServiceAd>) {
    s in cs && forall c :: c in cs && c.ad.nodeId == s.ad.nodeId ==> NoOlder(s.ad, c.ad)
  }

  ghost predicate HasNode(r: seq<SignedServiceAd>, n: NodeId) {
    exists s :: s in r && s.ad.nodeId == n
  }

  /** By fields: the newest valid ad of every node, newest first. */
  ghost predicate KeepsNewest(r: seq<SignedServiceAd>, cs: seq<SignedServiceAd>) {
    && Listed(r)
    && (forall s :: s in r ==> NewestOf(s, cs))
    && (forall c :: c in cs ==> HasNode(r, c.ad.nodeId))
  }

  lemma MergeKeepsNewest(r: seq<SignedServiceAd>, cs: seq<SignedServiceAd>)
    requires IsMerge(r, cs)
    ensures KeepsNewest(r, cs)
  {
    hide Best;
    forall s | s in r ensures NewestOf(s, cs) {
      BestIsBest(cs, s.ad.nodeId);
      forall c | c in cs && c.ad.nodeId == s.ad.nodeId ensures NoOlder(s.ad, c.ad) {
        PrecedesByFields(c, s);
        PrecedesByFields(s, c);
      }
    }
    forall c | c in cs ensures HasNode(r, c.ad.nodeId) {
      BestIsBest(cs, c.ad.nodeId);
      assert Best(cs, c.ad.nodeId).value in r;
    }
    forall i, j | 0 <= i < j < |r| ensures ListedBefore(r[i].ad, r[j].ad) {
      PrecedesByFields(r[i], r[j]);
    }
  }

  method MergeValid(buckets: seq<Bucket>, scheme: Scheme, ns: Namespace, now: U64) returns (ads: seq<SignedServiceAd>)
    ensures IsMerge(ads, Candidates(buckets, scheme, ns, now))
    ensures KeepsNewest(ads, Candidates(buckets, scheme, ns, now))
  {
    var merged: map<NodeId, SignedServiceAd> := map[];
    for i := 0 to |buckets|
      invariant HoldsBest(merged, Candidates(buckets[..i], scheme, ns, now))
    {
      assert buckets[..i + 1][..i] == buckets[..i];
      var bucket := buckets[i];
      ghost var done := Candidates(buckets[..i], scheme, ns, now);
      assert done + [] == done;
      if bucket.version == DHT_BUCKET_VERSION {
        for j := 0 to |bucket.ads|
          invariant HoldsBest(merged, done + ValidAds(bucket.ads[..j], scheme, ns, now))
        {
          var ad := bucket.ads[j];
          assert bucket.ads[..j + 1][..j] == bucket.ads[..j];
          ghost var before := done + ValidAds(bucket.ads[..j], scheme, ns, now);
          if !Verify(scheme, ns, now, ad) {
            assert done + ValidAds(bucket.ads[..j + 1], scheme, ns, now) == before;
          } else {
            assert done + ValidAds(bucket.ads[..j + 1], scheme, ns, now) == before + [ad];
            OneMoreHoldsBest(merged, before, ad);
            if ad.ad.nodeId !in merged || Precedes(ad, merged[ad.ad.nodeId]) {
              merged := merged[ad.ad.nodeId := ad];
            }
          }
        }
        assert bucket.ads[..|bucket.ads|] == bucket.ads;
      }
    }
    assert buckets[..|buckets|] == buckets;
    ads := SortedValues(merged, Candidates(buckets, scheme, ns, now));
    MergeKeepsNewest(ads, Candidates(buckets, scheme, ns, now));
  }

  /** The values of the map in key order. */
  method SortedValues(merged: map<NodeId, SignedServiceAd>, ghost cs: seq<SignedServiceAd>)
    returns (ads: seq<SignedServiceAd>)
    requires HoldsBest(merged, cs)
    ensures IsMerge(ads, cs)
  {
    hide Best, Sort;
    var left := merged.Keys;
    var values: seq<SignedServiceAd> := [];
    while left != {}
      invariant left <= merged.Keys
      invariant forall s :: s in values <==> s.ad.nodeId in merged && s.ad.nodeId !in left && merged[s.ad.nodeId] == s
      invariant DistinctNodes(values)
      decreases |left|
    {
      var n :| n in left;
      BestIsBest(cs, n);
      values := values + [merged[n]];
      left := left - {n};
    }
    ads := Sort(values, None);
    SortSorts(values, None);
    SortedDistinctIsStrict(values);
    assert forall s :: s in ads <==> Best(cs, s.ad.nodeId) == Some(s);
  }

  lemma {:induction false} DistinctMultiset(s: seq<SignedServiceAd>, x: SignedServiceAd)
    requires DistinctNodes(s)
    ensures multiset(s)[x] <= 1
  {
    if s != [] {
      DistinctMultiset(s[1..], x);
      assert s == [s[0]] + s[1..];
      forall y | y in s[1..] ensures y.ad.nodeId != s[0].ad.nodeId {
        var i :| 0 <= i < |s| - 1 && s[1..][i] == y;
        assert s[i + 1] == y;
      }
    }
  }

  /** Sorting keeps distinct nodes distinct, so the order is strict. */
  lemma SortedDistinctIsStrict(s: seq<SignedServiceAd>)
    requires DistinctNodes(s)
    ensures StrictlySorted(Sort(s, None)) && DistinctNodes(Sort(s, None))
  {
    var r := Sort(s, None);
    SortSorts(s, None);
    SortKeepsDistinct(s, None);
    forall i, j | 0 <= i < j < |r| ensures Precedes(r[i], r[j]) {
      BeforeAsymmetric(r[i], r[j], None);
    }
  }

  lemma SortKeepsDistinct(s: seq<SignedServiceAd>, preferred: Option<NodeId>)
    requires DistinctNodes(s)
    ensures DistinctNodes(Sort(s, preferred))
  {
    var r := Sort(s, preferred);
    InMultiset(r, s);
    forall i, j | 0 <= i < j < |r| ensures r[i].ad.nodeId != r[j].ad.nodeId {
      assert r[i] in s && r[j] in s;
      var k :| 0 <= k < |s| && s[k] == r[i];
      var l :| 0 <= l < |s| && s[l] == r[j];
      if k == l {
        DistinctMultiset(s, r[i]);
        TwiceInMultiset(r, i, j);
      }
    }
  }

  lemma TwiceInMultiset(r: seq<SignedServiceAd>, i: nat, j: nat)
    requires i < j < |r| && r[i] == r[j]
    ensures multiset(r)[r[i]] >= 2
  {
    assert r == r[..i] + [r[i]] + r[i + 1..j] + [r[j]] + r[j + 1..];
  }
}
