// The bucket as an object: `upsert` and `trim_to_size` change it in place (src/swarm/record.rs:167-216).

module Trim {
  import opened Wrappers
  import opened Bytes
  import opened Postcard
  import opened Record
  import opened AdOrder

  function EncodedLen(version: Byte, ads: seq<SignedServiceAd>): nat {
    |BucketBytes(Bucket(version, ads))|
  }

  predicate Fits(version: Byte, ads: seq<SignedServiceAd>) {
    EncodedLen(version, ads) <= DHT_MAX_BUCKET_BYTES
  }

  /** What eviction may take: anything but the preferred node's ads. */
  predicate Removable(s: SignedServiceAd, preferred: Option<NodeId>) {
    preferred != Some(s.ad.nodeId)
  }

  function Protected(s: seq<SignedServiceAd>, preferred: Option<NodeId>): (n: nat)
    ensures n <= |s|
  {
    if s == [] then 0
    else Protected(s[..|s| - 1], preferred) + if Removable(s[|s| - 1], preferred) then 0 else 1
  }

  /** In preferred-key order the protected ads come first. */
  lemma {:induction false} ProtectedFirst(s: seq<SignedServiceAd>, preferred: Option<NodeId>)
    requires Sorted(s, preferred)
    ensures forall i :: 0 <= i < |s| ==> (Removable(s[i], preferred) <==> i >= Protected(s, preferred))
    ensures forall i :: 0 <= i < |s| ==> (preferred == Some(s[i].ad.nodeId) <==> i < Protected(s, preferred))
  {
    if s != [] {
      var init := s[..|s| - 1];
      ProtectedFirst(init, preferred);
      if !Removable(s[|s| - 1], preferred) {
        forall i | 0 <= i < |init| ensures !Removable(s[i], preferred) {
          assert !Before(s[|s| - 1], s[i], preferred);
        }
        if init != [] {
          assert init[|init| - 1] == s[|init| - 1];
        }
        assert Protected(init, preferred) == |init|;
      }
    }
  }

  lemma {:induction false} AdListGrows(s: seq<SignedServiceAd>, k: nat)
    requires k <= |s|
    ensures |AdListBytes(s[..k])| <= |AdListBytes(s)|
  {
    if k > 0 {
      assert s[..k][1..] == s[1..][..k - 1];
      AdListGrows(s[1..], k - 1);
    }
  }

  /** A prefix never encodes to more bytes. */
  lemma PrefixIsShorter(version: Byte, s: seq<SignedServiceAd>, k: nat)
    requires k <= |s|
    ensures EncodedLen(version, s[..k]) <= EncodedLen(version, s)
  {
    VarintMonotone(k, |s|);
    AdListGrows(s, k);
  }

  /** `kept` is what greedy eviction leaves of `s`: a prefix, with all protected ads, that fits or has
      nothing left to evict, and that is as long as it can be. */
  ghost predicate IsTrimmed(version: Byte, s: seq<SignedServiceAd>, preferred: Option<NodeId>,
                            kept: seq<SignedServiceAd>, fits: bool)
  {
    && kept <= s
    && Protected(s, preferred) <= |kept|
    && (fits <==> Fits(version, kept))
    && (!fits ==> |kept| == Protected(s, preferred))
    && (|kept| < |s| ==> !Fits(version, s[..|kept| + 1]))
  }

  /** It is the longest prefix that fits and keeps the protected ads, if there is one. */
  lemma TrimKeepsLongest(version: Byte, s: seq<SignedServiceAd>, preferred: Option<NodeId>,
                         kept: seq<SignedServiceAd>, fits: bool, k: nat)
    requires IsTrimmed(version, s, preferred, kept, fits)
    requires Protected(s, preferred) <= k <= |s| && |BucketBytes(Bucket(version, s[..k]))| <= 1000
    ensures fits && k <= |kept|
  {
    if k > |kept| {
      assert s[..k][..|kept| + 1] == s[..|kept| + 1];
      PrefixIsShorter(version, s[..k], |kept| + 1);
    }
    assert s[..k][..Protected(s, preferred)] == s[..Protected(s, preferred)];
    PrefixIsShorter(version, s[..k], Protected(s, preferred));
    assert kept == s[..|kept|];
  }

  /** Trimming fails exactly when the protected ads alone are too large, so never without a preferred node. */
  lemma TrimFailsExactlyWhen(version: Byte, s: seq<SignedServiceAd>, preferred: Option<NodeId>,
                             kept: seq<SignedServiceAd>, fits: bool)
    requires Sorted(s, preferred) && IsTrimmed(version, s, preferred, kept, fits)
    ensures fits <==> |BucketBytes(Bucket(version, s[..Protected(s, preferred)]))| <= 1000
    ensures preferred.None? ==> fits
    ensures forall x :: x in s && !Removable(x, preferred) ==> x in kept
  {
    var p := Protected(s, preferred);
    ProtectedFirst(s, preferred);
    assert kept == s[..|kept|];
    if fits {
      assert kept[..p] == s[..p];
      PrefixIsShorter(version, kept, p);
    }
    if preferred.None? {
      assert forall x: SignedServiceAd :: Removable(x, preferred);
      assert s[..0] == [];
      assert |Varint(0)| == 1 && AdListBytes([]) == [];
    }
    forall x | x in s && !Removable(x, preferred) ensures x in kept {
      var i :| 0 <= i < |s| && s[i] == x;
      assert kept[i] == x;
    }
  }
}

module BucketStore {
  import opened Wrappers
  import opened Bytes
  import opened Record
  import opened AdOrder
  import opened Merge
  import opened MergeLaws
  import opened Trim

  /** In a prefix that holds all protected ads, the last ad is the one to evict, if any is. */
  lemma LastOfPrefix(s: seq<SignedServiceAd>, preferred: Option<NodeId>, ads: seq<SignedServiceAd>)
    requires Sorted(s, preferred) && ads <= s && Protected(s, preferred) <= |ads|
    ensures |ads| > Protected(s, preferred) ==> Removable(ads[|ads| - 1], preferred)
    ensures forall i :: 0 <= i < |ads| && Removable(ads[i], preferred) ==> Protected(s, preferred) <= i
  {
    ProtectedFirst(s, preferred);
    assert forall i :: 0 <= i < |ads| ==> ads[i] == s[i];
  }

  lemma PrefixKeepsDistinct(s: seq<SignedServiceAd>, k: nat)
    requires k <= |s|
    ensures DistinctNodes(s) ==> DistinctNodes(s[..k])
  {
  }

  /** By fields: the evicted ad is not the preferred node's, and all ads of other nodes that stay come
      before it: newer, or as new and expiring later, or in every way alike with a lower node id. */
  ghost predicate EvictedLast(kept: seq<SignedServiceAd>, preferred: Option<NodeId>, m: SignedServiceAd) {
    && preferred != Some(m.ad.nodeId)
    && forall x :: x in kept && preferred != Some(x.ad.nodeId) ==> ListedBefore(x.ad, m.ad)
  }

  lemma TrimEvictsOldest(version: Byte, s: seq<SignedServiceAd>, preferred: Option<NodeId>, kept: seq<SignedServiceAd>,
                         fits: bool, m: SignedServiceAd)
    requires Sorted(s, preferred) && DistinctNodes(s) && IsTrimmed(version, s, preferred, kept, fits)
    requires m in s && m !in kept
    ensures EvictedLast(kept, preferred, m)
  {
    hide Fits;
    ProtectedFirst(s, preferred);
    var j :| 0 <= j < |s| && s[j] == m;
    assert forall k :: 0 <= k < |kept| ==> kept[k] == s[k];
    forall x | x in kept && preferred != Some(x.ad.nodeId) ensures ListedBefore(x.ad, m.ad) {
      var i :| 0 <= i < |kept| && kept[i] == x;
      assert s[i] == x && !Before(s[j], s[i], preferred);
      KeyTrichotomy(AdKey(x), AdKey(m));
      PrecedesByFields(x, m);
    }
  }

  /** The node of `ad` is there afterwards, with the newest of its ads. */
  ghost predicate HasKept(before: seq<SignedServiceAd>, ad: SignedServiceAd, after: seq<SignedServiceAd>) {
    exists s :: s in after && s.ad.nodeId == ad.ad.nodeId && KeptByUpsert(before, ad, s)
  }

  lemma UpsertHasKept(ads: seq<SignedServiceAd>, ad: SignedServiceAd)
    ensures DistinctNodes(ads) ==> HasKept(ads, ad, Upserted(ads, ad))
  {
    hide DistinctNodes, KeptByUpsert, Upserted;
    if DistinctNodes(ads) {
      UpsertKeepsNewest(ads, ad);
    }
  }

  class ServiceBucket {
    var version: Byte
    var ads: seq<SignedServiceAd>

    constructor (ads: seq<SignedServiceAd>)
      ensures this.ads == ads && version == DHT_BUCKET_VERSION
    {
      this.version, this.ads := DHT_BUCKET_VERSION, ads;
    }

    method Upsert(ad: SignedServiceAd)
      modifies this`ads
      ensures ads == Upserted(old(ads), ad)
      ensures DistinctNodes(old(ads)) ==> HasKept(old(ads), ad, ads)
    {
      hide DistinctNodes, HasKept, Precedes;
      UpsertHasKept(ads, ad);
      var i := 0;
      while i < |ads| && ads[i].ad.nodeId != ad.ad.nodeId
        invariant i <= |ads| && ads == old(ads)
        invariant Upserted(ads, ad) == ads[..i] + Upserted(ads[i..], ad)
      {
        assert ads[i..][1..] == ads[i + 1..];
        i := i + 1;
      }
      if i < |ads| {
        if Precedes(ad, ads[i]) {
          ads := ads[i := ad];
        }
        return;
      }
      ads := ads + [ad];
    }

    /** The last ad that may be evicted. */
    method LastRemovable(preferred: Option<NodeId>) returns (idx: Option<nat>)
      ensures idx.Some? ==> idx.value < |ads| && Removable(ads[idx.value], preferred)
                            && forall i :: idx.value < i < |ads| ==> !Removable(ads[i], preferred)
      ensures idx.None? ==> forall i :: 0 <= i < |ads| ==> !Removable(ads[i], preferred)
    {
      var i := |ads|;
      while i > 0
        invariant 0 <= i <= |ads| && forall j :: i <= j < |ads| ==> !Removable(ads[j], preferred)
      {
        i := i - 1;
        if Removable(ads[i], preferred) {
          return Some(i);
        }
      }
      return None;
    }

    method TrimToSize(preferred: Option<NodeId>) returns (fits: bool)
      modifies this`ads
      ensures IsTrimmed(version, Sort(old(ads), preferred), preferred, ads, fits)
      ensures DistinctNodes(old(ads)) ==> DistinctNodes(ads)
      ensures fits <==> |BucketBytes(Bucket(version, ads))| <= 1000
      ensures forall m :: m in ads ==> m in old(ads)
      ensures DistinctNodes(old(ads)) ==>
                forall m :: m in old(ads) && m !in ads ==> EvictedLast(ads, preferred, m)
    {
      ghost var s := Sort(ads, preferred);
      SortSorts(ads, preferred);
      if DistinctNodes(ads) {
        SortKeepsDistinct(ads, preferred);
      }
      ads := Sort(ads, preferred);
      fits := EvictUntilItFits(preferred);
      assert ads == s[..|ads|];
      PrefixKeepsDistinct(s, |ads|);
      forall m | m in ads ensures m in s {
        var i :| 0 <= i < |ads| && ads[i] == m;
        assert s[i] == m;
      }
      if DistinctNodes(s) {
        forall m | m in s && m !in ads ensures EvictedLast(ads, preferred, m) {
          TrimEvictsOldest(version, s, preferred, ads, fits, m);
        }
      }
    }

    /** The loop of `trim_to_size`. */
    method EvictUntilItFits(preferred: Option<NodeId>) returns (fits: bool)
      requires Sorted(ads, preferred)
      modifies this`ads
      ensures IsTrimmed(version, old(ads), preferred, ads, fits)
    {
      ghost var s := ads;
      while true
        invariant ads <= s && Protected(s, preferred) <= |ads|
        invariant |ads| < |s| ==> !Fits(version, s[..|ads| + 1])
        decreases |ads|
      {
        if Fits(version, ads) {
          return true;
        }
        var idx := LastRemovable(preferred);
        LastOfPrefix(s, preferred, ads);
        if idx.None? {
          break;
        }
        ghost var before := ads;
        assert idx.value == |before| - 1 && before == s[..|before|];
        ads := ads[..idx.value] + ads[idx.value + 1..];
        assert ads == before[..idx.value];
        assert s[..|ads| + 1] == before;
      }
      fits := Fits(version, ads);
    }
  }
}
