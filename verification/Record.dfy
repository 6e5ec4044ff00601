// Signed service advertisements and the bucket that holds them (src/swarm/record.rs): their bytes,
// their signatures and when they verify.

module Record {
  import opened Wrappers
  import opened Bytes
  import opened Postcard

  const DHT_BUCKET_VERSION: Byte := 2
  const DHT_MAX_BUCKET_BYTES: nat := 1000
  const MAX_FUTURE_SKEW_SECS: U64 := 300

  datatype ServiceAd = ServiceAd(nodeId: NodeId, tags: Tags, publishedAt: U64, expiresAt: U64)

  datatype SignedServiceAd = SignedServiceAd(ad: ServiceAd, signature: Signature)

  /** The bucket as it travels; `BucketStore.ServiceBucket` is the object that is updated in place. */
  datatype Bucket = Bucket(version: Byte, ads: seq<SignedServiceAd>)

  /** What a bucket is for: service, minute and shard. */
  datatype Namespace = Namespace(alpn: Blob, minute: U64, shard: Byte)

  /** A signature scheme: which byte arrays are public keys, and signing and verification under the
      key pair that a public key stands for. */
  datatype Scheme = Scheme(
    isKey: NodeId -> bool,
    sign: (NodeId, seq<Byte>) -> Signature,
    verify: (NodeId, seq<Byte>, Signature) -> bool)

  // ---------------------------------------------------------------------------
  // Bytes
  // ---------------------------------------------------------------------------

  function AdBytes(ad: ServiceAd): seq<Byte> {
    ad.nodeId + (TagsBytes(ad.tags) + (Varint(ad.publishedAt) + Varint(ad.expiresAt)))
  }

  function SignedBytes(s: SignedServiceAd): seq<Byte> {
    AdBytes(s.ad) + s.signature
  }

  function AdListBytes(ads: seq<SignedServiceAd>): seq<Byte> {
    if ads == [] then [] else SignedBytes(ads[0]) + AdListBytes(ads[1..])
  }

  function BucketBytes(b: Bucket): seq<Byte> {
    [b.version] + (Varint(|b.ads|) + AdListBytes(b.ads))
  }

  /** The envelope that is signed: version, namespace and ad. */
  function SigningMessage(ns: Namespace, ad: ServiceAd): seq<Byte> {
    [DHT_BUCKET_VERSION] + (BlobBytes(ns.alpn) + (Varint(ns.minute) + ([ns.shard] + AdBytes(ad))))
  }

  function TakeAd(b: seq<Byte>): Option<(ServiceAd, seq<Byte>)> {
    match Take(32, b)
    case None => None
    case Some((nodeId, b1)) =>
      match TakeTags(b1)
      case None => None
      case Some((tags, b2)) =>
        match TakeVarint(b2)
        case None => None
        case Some((publishedAt, b3)) =>
          match TakeVarint(b3)
          case None => None
          case Some((expiresAt, b4)) => Some((ServiceAd(nodeId, tags, publishedAt, expiresAt), b4))
  }

  function TakeSigned(b: seq<Byte>): Option<(SignedServiceAd, seq<Byte>)> {
    match TakeAd(b)
    case None => None
    case Some((ad, rest)) =>
      match Take(64, rest)
      case None => None
      case Some((signature, rest')) => Some((SignedServiceAd(ad, signature), rest'))
  }

  function TakeAdList(n: nat, b: seq<Byte>): (r: Option<(seq<SignedServiceAd>, seq<Byte>)>)
    ensures r.Some? ==> |r.value.0| == n
  {
    if n == 0 then Some(([], b))
    else
      match TakeSigned(b)
      case None => None
      case Some((s, rest)) =>
        match TakeAdList(n - 1, rest)
        case None => None
        case Some((ads, rest')) => Some(([s] + ads, rest'))
  }

  /** Decoding ignores bytes after the bucket. */
  function DecodeBucket(b: seq<Byte>): Option<Bucket> {
    if b == [] then None
    else
      match TakeVarint(b[1..])
      case None => None
      case Some((n, rest)) =>
        match TakeAdList(n, rest)
        case None => None
        case Some((ads, _)) => Some(Bucket(b[0], ads))
  }

  lemma AdRoundTrip(ad: ServiceAd, rest: seq<Byte>)
    ensures TakeAd(AdBytes(ad) + rest) == Some((ad, rest))
  {
    var b3 := Varint(ad.expiresAt) + rest;
    var b2 := Varint(ad.publishedAt) + b3;
    var b1 := TagsBytes(ad.tags) + b2;
    assert AdBytes(ad) + rest == ad.nodeId + b1;
    TakeRoundTrip(ad.nodeId, b1);
    TagsRoundTrip(ad.tags, b2);
    VarintRoundTrip(ad.publishedAt, b3);
    VarintRoundTrip(ad.expiresAt, rest);
  }

  lemma SignedRoundTrip(s: SignedServiceAd, rest: seq<Byte>)
    ensures TakeSigned(SignedBytes(s) + rest) == Some((s, rest))
  {
    assert SignedBytes(s) + rest == AdBytes(s.ad) + (s.signature + rest);
    AdRoundTrip(s.ad, s.signature + rest);
    TakeRoundTrip(s.signature, rest);
  }

  lemma {:induction false} AdListRoundTrip(ads: seq<SignedServiceAd>, rest: seq<Byte>)
    ensures TakeAdList(|ads|, AdListBytes(ads) + rest) == Some((ads, rest))
  {
    if ads == [] {
      assert AdListBytes(ads) + rest == rest;
    } else {
      var more := AdListBytes(ads[1..]) + rest;
      assert AdListBytes(ads) + rest == SignedBytes(ads[0]) + more;
      SignedRoundTrip(ads[0], more);
      AdListRoundTrip(ads[1..], rest);
      assert [ads[0]] + ads[1..] == ads;
    }
  }

  /** What is published is what is read back, whatever follows it. */
  lemma BucketRoundTrip(b: Bucket, trailing: seq<Byte>)
    requires |b.ads| < U64_LIMIT
    ensures DecodeBucket(BucketBytes(b) + trailing) == Some(b)
  {
    var bytes := BucketBytes(b) + trailing;
    assert bytes[1..] == Varint(|b.ads|) + (AdListBytes(b.ads) + trailing);
    VarintRoundTrip(|b.ads|, AdListBytes(b.ads) + trailing);
    AdListRoundTrip(b.ads, trailing);
  }

  /** The layout by an example: the node id as it is, the number of tags, each tag behind its length, then
      the two times; for the envelope the version, the service behind its length, minute and shard first; for
      the bucket the version and the number of ads, each followed by its signature as it is. */
  lemma LayoutExample(node: NodeId, signature: Signature)
    ensures var ad := ServiceAd(node, [[0x61], [0x62, 0x63]], 300, 5);
            && AdBytes(ad) == node + [2, 1, 0x61, 2, 0x62, 0x63, 0xAC, 0x02, 5]
            && SigningMessage(Namespace([0x78, 0x79], 128, 9), ad) == [2, 2, 0x78, 0x79, 0x80, 0x01, 9] + AdBytes(ad)
            && BucketBytes(Bucket(2, [SignedServiceAd(ad, signature)])) == [2, 1] + AdBytes(ad) + signature
            && BucketBytes(Bucket(2, [])) == [2, 0]
  {
    var tags: seq<Tag> := [[0x61], [0x62, 0x63]];
    var ad := ServiceAd(node, tags, 300, 5);
    assert Varint(300) == [0xAC, 0x02] && Varint(128) == [0x80, 0x01];
    assert TagListBytes([]) == [];
    assert tags[1..] == [[0x62, 0x63]] && tags[1..][1..] == [];
    assert TagListBytes(tags[1..]) == [2, 0x62, 0x63];
    assert TagListBytes(tags) == [1, 0x61, 2, 0x62, 0x63];
    assert AdListBytes([SignedServiceAd(ad, signature)]) == AdBytes(ad) + signature;
  }

  lemma TailsEqual(x: Byte, a: seq<Byte>, y: Byte, b: seq<Byte>)
    requires [x] + a == [y] + b
    ensures x == y && a == b
  {
    assert ([x] + a)[0] == x && ([y] + b)[0] == y;
    assert ([x] + a)[1..] == a && ([y] + b)[1..] == b;
  }

  /** The signed envelope determines the namespace and the ad: no two different pairs share it. */
  lemma SigningMessageInjective(ns1: Namespace, ad1: ServiceAd, ns2: Namespace, ad2: ServiceAd)
    requires SigningMessage(ns1, ad1) == SigningMessage(ns2, ad2)
    ensures ns1 == ns2 && ad1 == ad2
  {
    var (s1, s2) := ([ns1.shard] + AdBytes(ad1), [ns2.shard] + AdBytes(ad2));
    var (m1, m2) := (Varint(ns1.minute) + s1, Varint(ns2.minute) + s2);
    TailsEqual(2, BlobBytes(ns1.alpn) + m1, 2, BlobBytes(ns2.alpn) + m2);
    BlobRoundTrip(ns1.alpn, m1);
    BlobRoundTrip(ns2.alpn, m2);
    VarintRoundTrip(ns1.minute, s1);
    VarintRoundTrip(ns2.minute, s2);
    TailsEqual(ns1.shard, AdBytes(ad1), ns2.shard, AdBytes(ad2));
    AdRoundTrip(ad1, []);
    AdRoundTrip(ad2, []);
    assert AdBytes(ad1) + [] == AdBytes(ad1) && AdBytes(ad2) + [] == AdBytes(ad2);
  }

  // ---------------------------------------------------------------------------
  // Signing and verifying
  // ---------------------------------------------------------------------------

  function Sign(scheme: Scheme, node: NodeId, ns: Namespace, tags: Tags, publishedAt: U64,
                expiresAt: U64): SignedServiceAd
  {
    var ad := ServiceAd(node, tags, publishedAt, expiresAt);
    SignedServiceAd(ad, scheme.sign(node, SigningMessage(ns, ad)))
  }

  /** The time checks, in the order of the code. */
  predicate InWindow(ad: ServiceAd, now: U64) {
    !(|| ad.expiresAt <= now
      || ad.publishedAt > ad.expiresAt
      || ad.publishedAt > SaturatingAdd(now, MAX_FUTURE_SKEW_SECS))
  }

  predicate Verify(scheme: Scheme, ns: Namespace, now: U64, s: SignedServiceAd) {
    && InWindow(s.ad, now)
    && scheme.isKey(s.ad.nodeId)
    && scheme.verify(s.ad.nodeId, SigningMessage(ns, s.ad), s.signature)
  }

  /** `signature` is accepted under `node` for `message` and for nothing else. */
  ghost predicate SignsOnly(scheme: Scheme, node: NodeId, message: seq<Byte>, signature: Signature) {
    forall m :: scheme.verify(node, m, signature) <==> m == message
  }

  /** Namespace binding: a signed ad verifies in its own namespace and time window and in no other. */
  lemma VerifiesExactlyAtHome(scheme: Scheme, node: NodeId, ns: Namespace, tags: Tags, publishedAt: U64, expiresAt: U64,
                              ns': Namespace, now: U64)
    requires var s := Sign(scheme, node, ns, tags, publishedAt, expiresAt);
             SignsOnly(scheme, node, SigningMessage(ns, s.ad), s.signature)
    ensures var s := Sign(scheme, node, ns, tags, publishedAt, expiresAt);
            Verify(scheme, ns', now, s) <==>
            scheme.isKey(node) && ns' == ns && now < expiresAt && publishedAt <= expiresAt
            && publishedAt <= now + 300
  {
    var ad := Sign(scheme, node, ns, tags, publishedAt, expiresAt).ad;
    if SigningMessage(ns', ad) == SigningMessage(ns, ad) {
      SigningMessageInjective(ns', ad, ns, ad);
    }
  }

  /** A signature moved to a different ad of the same node is rejected in every namespace. */
  lemma AlteredAdIsRejected(scheme: Scheme, ns: Namespace, s: SignedServiceAd, ad': ServiceAd, ns': Namespace, now: U64)
    requires SignsOnly(scheme, s.ad.nodeId, SigningMessage(ns, s.ad), s.signature)
    requires ad'.nodeId == s.ad.nodeId && ad' != s.ad
    ensures !Verify(scheme, ns', now, SignedServiceAd(ad', s.signature))
  {
    if SigningMessage(ns', ad') == SigningMessage(ns, s.ad) {
      SigningMessageInjective(ns', ad', ns, s.ad);
    }
  }

  /** Time only ever ends an ad: once it verifies, it verifies until it expires. */
  lemma ValidUntilExpiry(scheme: Scheme, ns: Namespace, s: SignedServiceAd, now: U64, later: U64)
    requires Verify(scheme, ns, now, s) && now <= later
    ensures Verify(scheme, ns, later, s) <==> later < s.ad.expiresAt
  {
  }
}
