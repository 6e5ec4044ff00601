// One publisher's read-merge-write attempt and its retry loop (src/swarm/dht/publisher.rs:110-216).

module Publisher {
  import opened Wrappers
  import opened Bytes
  import opened Record
  import opened AdOrder
  import opened Merge
  import opened MergeLaws
  import opened Trim
  import opened BucketStore

  const DHT_AD_TTL_SECS: U64 := 120

  /** A mutable item: sequence number and value. Key and salt are fixed by the namespace. */
  datatype Item = Item(sequence: int, value: seq<Byte>)

  /** What a publisher brings: its key, its tags, its clock, and where it publishes. */
  datatype Local = Local(scheme: Scheme, ns: Namespace, node: NodeId, tags: Tags, now: U64)

  function LocalAd(l: Local): SignedServiceAd {
    Sign(l.scheme, l.node, l.ns, l.tags, l.now, SaturatingAdd(l.now, DHT_AD_TTL_SECS))
  }

  /** With a working key, the local ad verifies exactly as long as the clock is not at its very end. */
  lemma LocalAdVerifies(l: Local)
    requires var m := SigningMessage(l.ns, LocalAd(l).ad);
             l.scheme.isKey(l.node) && l.scheme.verify(l.node, m, l.scheme.sign(l.node, m))
    ensures Verify(l.scheme, l.ns, l.now, LocalAd(l)) <==> l.now < U64_MAX
  {
  }

  // ---------------------------------------------------------------------------
  // Reading
  // ---------------------------------------------------------------------------

  function Decoded(items: seq<Item>): seq<Bucket> {
    if items == [] then []
    else
      match DecodeBucket(items[0].value)
      case None => Decoded(items[1..])
      case Some(b) => [b] + Decoded(items[1..])
  }

  function LatestSeq(items: seq<Item>): Option<int> {
    if items == [] then None
    else
      match LatestSeq(items[1..])
      case None => Some(items[0].sequence)
      case Some(q) => Some(if q < items[0].sequence then items[0].sequence else q)
  }

  lemma {:induction false} LatestIsLargest(items: seq<Item>)
    ensures LatestSeq(items).None? <==> items == []
    ensures items != [] ==> exists x :: x in items && x.sequence == LatestSeq(items).value
    ensures forall x :: x in items ==> x.sequence <= LatestSeq(items).value
  {
    if items != [] {
      LatestIsLargest(items[1..]);
      assert items == [items[0]] + items[1..];
      assert items[0] in items;
    }
  }

  lemma {:induction false} DecodedHas(items: seq<Item>, x: Item, b: Bucket)
    requires x in items && DecodeBucket(x.value) == Some(b)
    ensures b in Decoded(items)
  {
    if items[0] != x {
      DecodedHas(items[1..], x, b);
    }
  }

  /** What is decoded is what the items hold, and nothing else. */
  lemma {:induction false} DecodedIs(items: seq<Item>, b: Bucket)
    ensures b in Decoded(items) <==> exists x :: x in items && DecodeBucket(x.value) == Some(b)
  {
    if items != [] {
      DecodedIs(items[1..], b);
      assert forall x :: x in items <==> x == items[0] || x in items[1..];
    }
  }

  method ReadShardState(items: seq<Item>, scheme: Scheme, ns: Namespace, now: U64)
    returns (ads: seq<SignedServiceAd>, latest: Option<int>)
    ensures IsMerge(ads, Candidates(Decoded(items), scheme, ns, now))
    ensures latest == LatestSeq(items)
  {
    latest := LatestSeq(items);
    ads := MergeValid(Decoded(items), scheme, ns, now);
  }

  // ---------------------------------------------------------------------------
  // Writing
  // ---------------------------------------------------------------------------

  function NextSeq(latest: Option<int>): int {
    match latest
    case None => 1
    case Some(q) => q + 1
  }

  function Prepared(l: Local, merged: seq<SignedServiceAd>): seq<SignedServiceAd> {
    Sort(Upserted(merged, LocalAd(l)), Some(l.node))
  }

  /** `kept` is what the bucket holds after reading `items`, adding the local ad and trimming. */
  ghost predicate Keeps(l: Local, items: seq<Item>, merged: seq<SignedServiceAd>, kept: seq<SignedServiceAd>,
                        fits: bool)
  {
    && IsMerge(merged, Candidates(Decoded(items), l.scheme, l.ns, l.now))
    && IsTrimmed(DHT_BUCKET_VERSION, Prepared(l, merged), Some(l.node), kept, fits)
  }

  /** One attempt: what was merged, what was kept of it with the local ad, whether that fits, and the
      put that follows if it does: the kept ads, one past the latest sequence number read, conditional
      on that number still being the stored one. */
  datatype Attempt = Attempt(merged: seq<SignedServiceAd>, kept: seq<SignedServiceAd>, fits: bool, item: Item,
      cas: Option<int>)

  ghost predicate IsAttempt(l: Local, items: seq<Item>, a: Attempt) {
    && Keeps(l, items, a.merged, a.kept, a.fits)
    && a.cas == LatestSeq(items)
    && a.item == Item(NextSeq(a.cas), BucketBytes(Bucket(DHT_BUCKET_VERSION, a.kept)))
  }

  method MakeAttempt(l: Local, items: seq<Item>) returns (a: Attempt)
    ensures IsAttempt(l, items, a)
  {
    hide IsMerge, IsTrimmed, Candidates, BucketBytes, Sort, Upserted, Sign;
    var ads, latest := ReadShardState(items, l.scheme, l.ns, l.now);
    var bucket := new ServiceBucket(ads);
    bucket.Upsert(LocalAd(l));
    var fits := bucket.TrimToSize(Some(l.node));
    a := Attempt(ads, bucket.ads, fits, Item(NextSeq(latest), BucketBytes(Bucket(bucket.version, bucket.ads))), latest);
  }
}
