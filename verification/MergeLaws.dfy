// Merging is a join: what it depends on, and how it composes with itself and with `upsert`
// (src/swarm/record.rs:131-180).

module MergeLaws {
  import opened Wrappers
  import opened Bytes
  import opened Record
  import opened AdOrder
  import opened Merge

  /** Some bucket of the current version has the ad. */
  ghost predicate Holds(buckets: seq<Bucket>, s: SignedServiceAd) {
    exists b :: b in buckets && b.version == DHT_BUCKET_VERSION && s in b.ads
  }

  /** The ads that count: valid, and in some bucket of the current version. */
  lemma {:induction false} CandidatesAre(buckets: seq<Bucket>, scheme: Scheme, ns: Namespace, now: U64,
      s: SignedServiceAd)
    ensures s in Candidates(buckets, scheme, ns, now) <==>
            Verify(scheme, ns, now, s) && Holds(buckets, s)
  {
    if buckets != [] {
      var (init, last) := (buckets[..|buckets| - 1], buckets[|buckets| - 1]);
      CandidatesAre(init, scheme, ns, now, s);
      assert forall b :: b in buckets <==> b in init || b == last;
    }
  }

  lemma {:induction false} CandidatesOfConcat(a: seq<Bucket>, b: seq<Bucket>, scheme: Scheme, ns: Namespace, now: U64)
    ensures Candidates(a + b, scheme, ns, now) == Candidates(a, scheme, ns, now) + Candidates(b, scheme, ns, now)
  {
    if b == [] {
      assert a + b == a;
    } else {
      assert (a + b)[..|a + b| - 1] == a + b[..|b| - 1];
      CandidatesOfConcat(a, b[..|b| - 1], scheme, ns, now);
    }
  }

  lemma {:induction false} ValidAdsOfValid(ads: seq<SignedServiceAd>, scheme: Scheme, ns: Namespace, now: U64)
    requires forall s :: s in ads ==> Verify(scheme, ns, now, s)
    ensures ValidAds(ads, scheme, ns, now) == ads
  {
    hide Verify;
    if ads != [] {
      ValidAdsOfValid(ads[..|ads| - 1], scheme, ns, now);
      assert ads[..|ads| - 1] + [ads[|ads| - 1]] == ads;
    }
  }

  /** A merged list put back into a bucket is its own list of candidates. */
  lemma MergedBucket(r: seq<SignedServiceAd>, buckets: seq<Bucket>, scheme: Scheme, ns: Namespace, now: U64)
    requires IsMerge(r, Candidates(buckets, scheme, ns, now))
    ensures Candidates([Bucket(DHT_BUCKET_VERSION, r)], scheme, ns, now) == r
  {
    MergeHasDistinctNodes(r, Candidates(buckets, scheme, ns, now));
    forall s | s in r ensures Verify(scheme, ns, now, s) {
      CandidatesAre(buckets, scheme, ns, now, s);
    }
    ValidAdsOfValid(r, scheme, ns, now);
    var one := [Bucket(DHT_BUCKET_VERSION, r)];
    assert one[..0] == [];
    assert Candidates([], scheme, ns, now) == [] && [] + r == r;
  }

  /** Idempotence: merging a merge changes nothing. */
  lemma MergeIdempotent(r: seq<SignedServiceAd>, again: seq<SignedServiceAd>, buckets: seq<Bucket>,
                        scheme: Scheme, ns: Namespace, now: U64)
    requires IsMerge(r, Candidates(buckets, scheme, ns, now))
    requires IsMerge(again, Candidates([Bucket(DHT_BUCKET_VERSION, r)], scheme, ns, now))
    ensures again == r
  {
    var cs := Candidates(buckets, scheme, ns, now);
    MergedBucket(r, buckets, scheme, ns, now);
    forall n ensures Best(r, n) == Best(cs, n) {
      BestOfMerge(r, cs, n);
    }
    MergeUnique(again, r, r, cs);
  }

  /** Merging in stages equals merging at once, whichever part is merged first. */
  lemma MergeInStages(a: seq<Bucket>, b: seq<Bucket>, ra: seq<SignedServiceAd>, rb: seq<SignedServiceAd>,
                      left: seq<SignedServiceAd>, right: seq<SignedServiceAd>, all: seq<SignedServiceAd>,
                      scheme: Scheme, ns: Namespace, now: U64)
    requires IsMerge(ra, Candidates(a, scheme, ns, now)) && IsMerge(rb, Candidates(b, scheme, ns, now))
    requires IsMerge(left, Candidates([Bucket(DHT_BUCKET_VERSION, ra)] + b, scheme, ns, now))
    requires IsMerge(right, Candidates(a + [Bucket(DHT_BUCKET_VERSION, rb)], scheme, ns, now))
    requires IsMerge(all, Candidates(a + b, scheme, ns, now))
    ensures left == all && right == all
  {
    var (ca, cb) := (Candidates(a, scheme, ns, now), Candidates(b, scheme, ns, now));
    MergedBucket(ra, a, scheme, ns, now);
    MergedBucket(rb, b, scheme, ns, now);
    CandidatesOfConcat([Bucket(DHT_BUCKET_VERSION, ra)], b, scheme, ns, now);
    CandidatesOfConcat(a, [Bucket(DHT_BUCKET_VERSION, rb)], scheme, ns, now);
    CandidatesOfConcat(a, b, scheme, ns, now);
    forall n ensures Best(ra + cb, n) == Best(ca + cb, n) && Best(ca + rb, n) == Best(ca + cb, n) {
      BestOfMerge(ra, ca, n);
      BestOfMerge(rb, cb, n);
      BestOfConcat(ra, cb, n);
      BestOfConcat(ca, cb, n);
      BestOfConcat(ca, rb, n);
    }
    MergeUnique(left, all, ra + cb, ca + cb);
    MergeUnique(right, all, ca + rb, ca + cb);
  }

  lemma BestKeyByMembers(c1: seq<SignedServiceAd>, c2: seq<SignedServiceAd>, n: NodeId)
    requires forall s :: s in c1 <==> s in c2
    ensures Best(c1, n).Some? <==> Best(c2, n).Some?
    ensures Best(c1, n).Some? ==> AdKey(Best(c1, n).value) == AdKey(Best(c2, n).value)
  {
    BestIsBest(c1, n);
    BestIsBest(c2, n);
    if Best(c1, n).Some? {
      KeyTrichotomy(AdKey(Best(c1, n).value), AdKey(Best(c2, n).value));
    }
  }

  lemma MergedKeyByMembers(r1: seq<SignedServiceAd>, r2: seq<SignedServiceAd>,
                           c1: seq<SignedServiceAd>, c2: seq<SignedServiceAd>, s: SignedServiceAd)
    requires IsMerge(r1, c1) && IsMerge(r2, c2) && (forall x :: x in c1 <==> x in c2) && s in r1
    ensures exists x :: x in r2 && AdKey(x) == AdKey(s)
  {
    BestKeyByMembers(c1, c2, s.ad.nodeId);
    var x := Best(c2, s.ad.nodeId).value;
    BestIsBest(c2, s.ad.nodeId);
    assert x in r2 && AdKey(x) == AdKey(s);
  }

  lemma KeysByMembers(r1: seq<SignedServiceAd>, r2: seq<SignedServiceAd>, c1: seq<SignedServiceAd>,
                      c2: seq<SignedServiceAd>)
    requires IsMerge(r1, c1) && IsMerge(r2, c2) && forall x :: x in c1 <==> x in c2
    ensures forall k :: k in Keys(r1) ==> k in Keys(r2)
  {
    KeysOfSorted(r1);
    KeysOfSorted(r2);
    forall k | k in Keys(r1) ensures k in Keys(r2) {
      var s :| s in r1 && AdKey(s) == k;
      MergedKeyByMembers(r1, r2, c1, c2, s);
    }
  }

  /** The keys of the result depend only on which valid ads there are, not on the order of buckets or of
      the ads in them. */
  lemma KeysIgnoreOrder(a: seq<Bucket>, b: seq<Bucket>, ra: seq<SignedServiceAd>, rb: seq<SignedServiceAd>,
                        scheme: Scheme, ns: Namespace, now: U64)
    requires IsMerge(ra, Candidates(a, scheme, ns, now)) && IsMerge(rb, Candidates(b, scheme, ns, now))
    requires forall s :: Holds(a, s) <==> Holds(b, s)
    ensures Keys(ra) == Keys(rb)
  {
    var (ca, cb) := (Candidates(a, scheme, ns, now), Candidates(b, scheme, ns, now));
    forall s ensures s in ca <==> s in cb {
      CandidatesAre(a, scheme, ns, now, s);
      CandidatesAre(b, scheme, ns, now, s);
    }
    KeysByMembers(ra, rb, ca, cb);
    KeysByMembers(rb, ra, cb, ca);
    KeysOfSorted(ra);
    KeysOfSorted(rb);
    SortedKeysUnique(Keys(ra), Keys(rb));
  }

  // ---------------------------------------------------------------------------
  // upsert
  // ---------------------------------------------------------------------------

  /** The first ad of the same node is replaced if it is preceded; without one the ad is appended. */
  function Upserted(ads: seq<SignedServiceAd>, ad: SignedServiceAd): seq<SignedServiceAd> {
    if ads == [] then [ad]
    else if ads[0].ad.nodeId == ad.ad.nodeId then if Precedes(ad, ads[0]) then [ad] + ads[1..] else ads
    else [ads[0]] + Upserted(ads[1..], ad)
  }

  /** Members after an upsert: every other node's ads, and the better of the old and the new one. */
  ghost predicate UpsertMember(ads: seq<SignedServiceAd>, ad: SignedServiceAd, s: SignedServiceAd) {
    if s.ad.nodeId != ad.ad.nodeId then s in ads
    else if exists x :: x in ads && x.ad.nodeId == ad.ad.nodeId && !Precedes(ad, x) then s in ads
    else s == ad
  }

  lemma TailDistinct(ads: seq<SignedServiceAd>)
    requires ads != [] && DistinctNodes(ads)
    ensures DistinctNodes(ads[1..])
    ensures forall x :: x in ads <==> x == ads[0] || x in ads[1..]
    ensures forall x :: x in ads[1..] ==> x.ad.nodeId != ads[0].ad.nodeId
  {
    assert ads == [ads[0]] + ads[1..];
    forall x | x in ads[1..] ensures x.ad.nodeId != ads[0].ad.nodeId {
      var i :| 0 <= i < |ads| - 1 && ads[1..][i] == x;
      assert ads[i + 1] == x;
    }
  }

  lemma {:induction false} UpsertedMembers(ads: seq<SignedServiceAd>, ad: SignedServiceAd)
    requires DistinctNodes(ads)
    ensures forall s :: s in Upserted(ads, ad) <==> UpsertMember(ads, ad, s)
    ensures DistinctNodes(Upserted(ads, ad))
    ensures |Upserted(ads, ad)| <= |ads| + 1
  {
    if ads != [] {
      TailDistinct(ads);
      if ads[0].ad.nodeId != ad.ad.nodeId {
        UpsertedMembers(ads[1..], ad);
        var rest := Upserted(ads[1..], ad);
        forall i | 0 <= i < |rest| ensures rest[i].ad.nodeId != ads[0].ad.nodeId {
          assert UpsertMember(ads[1..], ad, rest[i]);
        }
        forall s ensures s in [ads[0]] + rest <==> UpsertMember(ads, ad, s) {
          assert s in rest <==> UpsertMember(ads[1..], ad, s);
        }
      }
    }
  }

  /** By fields: afterwards the node has the newest of its old ads and the new one, the old one on a tie. */
  lemma UpsertKeepsNewest(ads: seq<SignedServiceAd>, ad: SignedServiceAd)
    requires DistinctNodes(ads)
    ensures exists s :: s in Upserted(ads, ad) && s.ad.nodeId == ad.ad.nodeId && KeptByUpsert(ads, ad, s)
    ensures forall s :: s in Upserted(ads, ad) && s.ad.nodeId == ad.ad.nodeId ==> KeptByUpsert(ads, ad, s)
    ensures forall s: SignedServiceAd :: s.ad.nodeId != ad.ad.nodeId ==> (s in Upserted(ads, ad) <==> s in ads)
  {
    UpsertedMembers(ads, ad);
    forall s | s in Upserted(ads, ad) && s.ad.nodeId == ad.ad.nodeId ensures KeptByUpsert(ads, ad, s) {
      assert UpsertMember(ads, ad, s);
      UpsertedIsKept(ads, ad, s);
    }
    if x :| x in ads && x.ad.nodeId == ad.ad.nodeId && !Precedes(ad, x) {
      assert UpsertMember(ads, ad, x);
    } else {
      assert UpsertMember(ads, ad, ad);
    }
  }

  lemma UpsertedIsKept(ads: seq<SignedServiceAd>, ad: SignedServiceAd, s: SignedServiceAd)
    requires DistinctNodes(ads) && s.ad.nodeId == ad.ad.nodeId && UpsertMember(ads, ad, s)
    ensures KeptByUpsert(ads, ad, s)
  {
    forall x: SignedServiceAd | x.ad.nodeId == ad.ad.nodeId ensures !Precedes(ad, x) <==> NoOlder(x.ad, ad.ad) {
      PrecedesByFields(ad, x);
      PrecedesByFields(x, ad);
    }
  }

  ghost predicate KeptByUpsert(ads: seq<SignedServiceAd>, ad: SignedServiceAd, s: SignedServiceAd) {
    && NoOlder(s.ad, ad.ad)
    && (forall x :: x in ads && x.ad.nodeId == ad.ad.nodeId ==> NoOlder(s.ad, x.ad))
    && (s in ads || (s == ad && forall x :: x in ads && x.ad.nodeId == ad.ad.nodeId ==> !NoOlder(x.ad, ad.ad)))
  }

  /** Upserting a valid ad into a merged list and sorting it is merging with one bucket more, which holds it. */
  lemma UpsertIsMerge(r: seq<SignedServiceAd>, buckets: seq<Bucket>, scheme: Scheme, ns: Namespace, now: U64,
                      ad: SignedServiceAd)
    requires IsMerge(r, Candidates(buckets, scheme, ns, now)) && Verify(scheme, ns, now, ad)
    ensures IsMerge(Sort(Upserted(r, ad), None),
                    Candidates(buckets + [Bucket(DHT_BUCKET_VERSION, [ad])], scheme, ns, now))
  {
    var cs := Candidates(buckets, scheme, ns, now);
    var one := [Bucket(DHT_BUCKET_VERSION, [ad])];
    CandidatesOfConcat(buckets, one, scheme, ns, now);
    ValidAdsOfValid([ad], scheme, ns, now);
    assert one[..0] == [];
    assert Candidates([], scheme, ns, now) == [] && [] + [ad] == [ad];
    UpsertAddsCandidate(r, cs, ad);
  }

  lemma UpsertAddsCandidate(r: seq<SignedServiceAd>, cs: seq<SignedServiceAd>, ad: SignedServiceAd)
    requires IsMerge(r, cs)
    ensures IsMerge(Sort(Upserted(r, ad), None), cs + [ad])
  {
    var u := Upserted(r, ad);
    MergeHasDistinctNodes(r, cs);
    UpsertedMembers(r, ad);
    SortSorts(u, None);
    SortedDistinctIsStrict(u);
    assert (cs + [ad])[..|cs|] == cs;
    var n := ad.ad.nodeId;
    BestIsBest(cs, n);
    assert Best(cs + [ad], n) == Better(Best(cs, n), Some(ad));
    forall s ensures s in u <==> Best(cs + [ad], s.ad.nodeId) == Some(s) {
      if s.ad.nodeId == n {
        UpsertBest(r, cs, ad, s);
      }
    }
  }

  lemma UpsertBest(r: seq<SignedServiceAd>, cs: seq<SignedServiceAd>, ad: SignedServiceAd, s: SignedServiceAd)
    requires IsMerge(r, cs) && s.ad.nodeId == ad.ad.nodeId
    ensures UpsertMember(r, ad, s) <==> Better(Best(cs, ad.ad.nodeId), Some(ad)) == Some(s)
  {
    BestIsBest(cs, ad.ad.nodeId);
    if Best(cs, ad.ad.nodeId).Some? {
      assert Best(cs, ad.ad.nodeId).value in r;
    }
  }
}
