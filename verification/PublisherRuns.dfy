// Any number of publishers on one shard (src/swarm/dht/publisher.rs:132-169, 174-215). The shard is a
// register that accepts a put by the rule of BEP 44: the sequence number must be greater than the stored
// one and, if a cas value is given, it must be the stored one. Reads may return any items ever stored.

module PublisherRuns {
  import opened Wrappers
  import opened Bytes
  import opened Record
  import opened AdOrder
  import opened Merge
  import opened MergeLaws
  import opened Trim
  import opened Publisher

  // ---------------------------------------------------------------------------
  // What one attempt keeps
  // ---------------------------------------------------------------------------

  /** Ad `m` of the prepared list had to go: it is not the writer's, every other node's ad that stayed is listed
      before it, and with one ad more than what stayed the bucket would have been too large. */
  ghost predicate HadToGo(l: Local, prepared: seq<SignedServiceAd>, kept: seq<SignedServiceAd>, m: SignedServiceAd) {
    && m in prepared && m.ad.nodeId != l.node
    && (forall x :: x in kept && x.ad.nodeId != l.node ==> ListedBefore(x.ad, m.ad))
    && |kept| < |prepared| && kept == prepared[..|kept|]
    && |BucketBytes(Bucket(DHT_BUCKET_VERSION, prepared[..|kept| + 1]))| > 1000
  }

  /** Ad `a` is not lost from `kept`: an ad of its node that is no older was prepared for the bucket, and it is
      there or had to go. */
  ghost predicate NotLost(l: Local, prepared: seq<SignedServiceAd>, kept: seq<SignedServiceAd>, a: SignedServiceAd) {
    exists m :: m in prepared && m.ad.nodeId == a.ad.nodeId && NoOlder(m.ad, a.ad)
                && (m in kept || HadToGo(l, prepared, kept, m))
  }

  lemma PreparedMembers(l: Local, merged: seq<SignedServiceAd>, cs: seq<SignedServiceAd>)
    requires IsMerge(merged, cs)
    ensures var s := Prepared(l, merged);
            && Sorted(s, Some(l.node)) && DistinctNodes(s)
            && (forall x :: x in s <==> UpsertMember(merged, LocalAd(l), x))
  {
    MergeHasDistinctNodes(merged, cs);
    UpsertedMembers(merged, LocalAd(l));
    SortSorts(Upserted(merged, LocalAd(l)), Some(l.node));
    SortKeepsDistinct(Upserted(merged, LocalAd(l)), Some(l.node));
  }

  /** Every candidate has its match among the prepared ads. */
  lemma CandidateSurvives(l: Local, merged: seq<SignedServiceAd>, cs: seq<SignedServiceAd>, a: SignedServiceAd)
    returns (m: SignedServiceAd)
    requires IsMerge(merged, cs) && a in cs
    ensures m in Prepared(l, merged) && m.ad.nodeId == a.ad.nodeId && !Precedes(a, m)
  {
    PreparedMembers(l, merged, cs);
    BestIsBest(cs, a.ad.nodeId);
    var best := Best(cs, a.ad.nodeId).value;
    assert best in merged;
    m := best;
    if a.ad.nodeId == l.node && Precedes(LocalAd(l), best) {
      m := LocalAd(l);
      NotLessTransitive(AdKey(m), AdKey(best), AdKey(a));
      KeyTrichotomy(AdKey(m), AdKey(best));
      KeyTrichotomy(AdKey(m), AdKey(a));
      MergeHasDistinctNodes(merged, cs);
      forall x | x in merged && x.ad.nodeId == l.node ensures x == best {
      }
      assert UpsertMember(merged, LocalAd(l), m);
    } else {
      assert UpsertMember(merged, LocalAd(l), m);
    }
  }

  /** Eviction takes from the end: what goes is preceded by every evictable ad that stays. */
  lemma EvictedIsPreceded(s: seq<SignedServiceAd>, node: NodeId, kept: seq<SignedServiceAd>, fits: bool,
                          m: SignedServiceAd)
    requires Sorted(s, Some(node)) && DistinctNodes(s) && IsTrimmed(DHT_BUCKET_VERSION, s, Some(node), kept, fits)
    requires m in s && m !in kept
    ensures Removable(m, Some(node))
    ensures forall x :: x in kept && Removable(x, Some(node)) ==> Precedes(x, m)
  {
    hide Fits;
    ProtectedFirst(s, Some(node));
    var j :| 0 <= j < |s| && s[j] == m;
    assert forall k :: 0 <= k < |kept| ==> kept[k] == s[k];
    forall x | x in kept && Removable(x, Some(node)) ensures Precedes(x, m) {
      var i :| 0 <= i < |kept| && kept[i] == x;
      assert s[i] == x && !Before(s[j], s[i], Some(node));
      KeyTrichotomy(AdKey(x), AdKey(m));
    }
  }

  lemma FitsIn1000(ads: seq<SignedServiceAd>)
    ensures Fits(DHT_BUCKET_VERSION, ads) <==> |BucketBytes(Bucket(DHT_BUCKET_VERSION, ads))| <= 1000
  {
    hide BucketBytes;
  }

  lemma LeftOutIsShorter(prepared: seq<SignedServiceAd>, kept: seq<SignedServiceAd>, m: SignedServiceAd)
    requires kept <= prepared && m in prepared && m !in kept
    ensures |kept| < |prepared|
  {
    var j :| 0 <= j < |prepared| && prepared[j] == m;
    assert forall k :: 0 <= k < |kept| ==> kept[k] == prepared[k];
  }

  lemma EvictedHadToGo(l: Local, prepared: seq<SignedServiceAd>, kept: seq<SignedServiceAd>, fits: bool,
                       m: SignedServiceAd)
    requires Sorted(prepared, Some(l.node)) && DistinctNodes(prepared)
    requires IsTrimmed(DHT_BUCKET_VERSION, prepared, Some(l.node), kept, fits)
    requires m in prepared && m !in kept
    ensures HadToGo(l, prepared, kept, m)
  {
    hide Fits, BucketBytes, Sorted, DistinctNodes;
    EvictedIsPreceded(prepared, l.node, kept, fits, m);
    forall x | x in kept && x.ad.nodeId != l.node ensures ListedBefore(x.ad, m.ad) {
      PrecedesByFields(x, m);
    }
    assert kept == prepared[..|kept|];
    LeftOutIsShorter(prepared, kept, m);
    FitsIn1000(prepared[..|kept| + 1]);
  }

  lemma AttemptLosesNothing(l: Local, items: seq<Item>, at: Attempt, a: SignedServiceAd)
    requires IsAttempt(l, items, at) && a in Candidates(Decoded(items), l.scheme, l.ns, l.now)
    ensures NotLost(l, Prepared(l, at.merged), at.kept, a)
  {
    hide IsTrimmed, IsMerge, DistinctNodes, Sorted, UpsertMember, BucketBytes, HadToGo, Prepared, Precedes, NoOlder;
    var cs := Candidates(Decoded(items), l.scheme, l.ns, l.now);
    var m := CandidateSurvives(l, at.merged, cs, a);
    PreparedMembers(l, at.merged, cs);
    PrecedesByFields(m, a);
    PrecedesByFields(a, m);
    if m !in at.kept {
      EvictedHadToGo(l, Prepared(l, at.merged), at.kept, at.fits, m);
    }
  }

  lemma {:induction false} AdListLength(ads: seq<SignedServiceAd>)
    ensures |ads| <= |AdListBytes(ads)|
  {
    if ads != [] {
      AdListLength(ads[1..]);
    }
  }

  /** What a put carries: a decodable bucket of at most 1000 bytes, one ad per node, all valid at the
      writer's time, and for the writer's own node its local ad or one that the local ad does not precede. */
  ghost predicate GoodBucket(l: Local, value: seq<Byte>, kept: seq<SignedServiceAd>) {
    && |value| <= DHT_MAX_BUCKET_BYTES
    && DecodeBucket(value) == Some(Bucket(DHT_BUCKET_VERSION, kept))
    && DistinctNodes(kept)
    && HasOwn(l, kept)
    && (Verify(l.scheme, l.ns, l.now, LocalAd(l)) ==> forall x :: x in kept ==> Verify(l.scheme, l.ns, l.now, x))
  }

  ghost predicate HasOwn(l: Local, kept: seq<SignedServiceAd>) {
    exists m :: m in kept && m.ad.nodeId == l.node && !Precedes(LocalAd(l), m)
  }

  lemma PreparedHasOwn(l: Local, merged: seq<SignedServiceAd>, cs: seq<SignedServiceAd>) returns (m: SignedServiceAd)
    requires IsMerge(merged, cs)
    ensures m in Prepared(l, merged) && m.ad.nodeId == l.node && !Precedes(LocalAd(l), m)
  {
    PreparedMembers(l, merged, cs);
    KeyTrichotomy(AdKey(LocalAd(l)), AdKey(LocalAd(l)));
    if x :| x in merged && x.ad.nodeId == l.node && !Precedes(LocalAd(l), x) {
      m := x;
    } else {
      m := LocalAd(l);
    }
    assert UpsertMember(merged, LocalAd(l), m);
  }

  lemma PutIsGood(l: Local, items: seq<Item>, at: Attempt)
    requires IsAttempt(l, items, at) && at.fits
    ensures GoodBucket(l, at.item.value, at.kept)
  {
    var cs := Candidates(Decoded(items), l.scheme, l.ns, l.now);
    var s := Prepared(l, at.merged);
    PreparedMembers(l, at.merged, cs);
    AdListLength(at.kept);
    var bytes := BucketBytes(Bucket(DHT_BUCKET_VERSION, at.kept));
    assert |at.kept| <= |bytes|;
    BucketRoundTrip(Bucket(DHT_BUCKET_VERSION, at.kept), []);
    assert bytes + [] == bytes;
    PutHasOwn(l, at.merged, cs, at.kept);
    forall x | x in at.kept ensures x in s {
      var i :| 0 <= i < |at.kept| && at.kept[i] == x;
      assert s[i] == x;
    }
    if Verify(l.scheme, l.ns, l.now, LocalAd(l)) {
      KeptAreValid(l, items, at.merged, at.kept);
    }
  }

  lemma PutHasOwn(l: Local, merged: seq<SignedServiceAd>, cs: seq<SignedServiceAd>, kept: seq<SignedServiceAd>)
    requires IsMerge(merged, cs)
    requires IsTrimmed(DHT_BUCKET_VERSION, Prepared(l, merged), Some(l.node), kept, true)
    ensures HasOwn(l, kept) && DistinctNodes(kept)
  {
    hide Fits;
    var m := PreparedHasOwn(l, merged, cs);
    PreparedMembers(l, merged, cs);
    if m !in kept {
      EvictedIsPreceded(Prepared(l, merged), l.node, kept, true, m);
    }
    assert kept == Prepared(l, merged)[..|kept|];
  }

  lemma KeptAreValid(l: Local, items: seq<Item>, merged: seq<SignedServiceAd>, kept: seq<SignedServiceAd>)
    requires IsMerge(merged, Candidates(Decoded(items), l.scheme, l.ns, l.now))
    requires forall x :: x in kept ==> x in Prepared(l, merged)
    requires Verify(l.scheme, l.ns, l.now, LocalAd(l))
    ensures forall x :: x in kept ==> Verify(l.scheme, l.ns, l.now, x)
  {
    var cs := Candidates(Decoded(items), l.scheme, l.ns, l.now);
    PreparedMembers(l, merged, cs);
    MergeHasDistinctNodes(merged, cs);
    forall x | x in kept ensures Verify(l.scheme, l.ns, l.now, x) {
      assert UpsertMember(merged, LocalAd(l), x);
      if x != LocalAd(l) {
        CandidatesAre(Decoded(items), l.scheme, l.ns, l.now, x);
      }
    }
  }

  // ---------------------------------------------------------------------------
  // What is published
  // ---------------------------------------------------------------------------

  /** When an ad published now expires. */
  function Expiry(now: U64): U64 {
    if now + 120 < U64_LIMIT then now + 120 else U64_MAX
  }

  /** By fields: the ad of this node, with its tags, published now, and signed for this namespace. */
  predicate IsOwnAd(l: Local, s: SignedServiceAd) {
    && s.ad.nodeId == l.node && s.ad.tags == l.tags && s.ad.publishedAt == l.now && s.ad.expiresAt == Expiry(l.now)
    && s.signature == l.scheme.sign(l.node, SigningMessage(l.ns, s.ad))
  }

  /** By fields: every ad of this node that was read is older than one published now. */
  ghost predicate OwnIsNewest(l: Local, cs: seq<SignedServiceAd>) {
    forall c :: c in cs && c.ad.nodeId == l.node ==>
      c.ad.publishedAt < l.now || (c.ad.publishedAt == l.now && c.ad.expiresAt < Expiry(l.now))
  }

  /** The node's ad in the bucket: its own new one if that is the newest, else the one read that is no older. */
  ghost predicate OwnAdIs(l: Local, cs: seq<SignedServiceAd>, s: SignedServiceAd) {
    && s.ad.nodeId == l.node
    && if OwnIsNewest(l, cs) then IsOwnAd(l, s)
       else s in cs && (l.now < s.ad.publishedAt || (l.now == s.ad.publishedAt && Expiry(l.now) <= s.ad.expiresAt))
  }

  ghost predicate PublishesOwn(l: Local, cs: seq<SignedServiceAd>, kept: seq<SignedServiceAd>) {
    exists s :: s in kept && OwnAdIs(l, cs, s)
  }

  /** The put is numbered one past the largest number read, and conditional on that one; 1 if none was read. */
  ghost predicate GoesOnTop(items: seq<Item>, at: Attempt) {
    if items == [] then at.cas == None && at.item.sequence == 1
    else exists x :: x in items && (forall y :: y in items ==> y.sequence <= x.sequence)
                     && at.cas == Some(x.sequence) && at.item.sequence == x.sequence + 1
  }

  ghost predicate IsPublished(l: Local, items: seq<Item>, at: Attempt) {
    && GoodBucket(l, at.item.value, at.kept)
    && PublishesOwn(l, Candidates(Decoded(items), l.scheme, l.ns, l.now), at.kept)
    && GoesOnTop(items, at)
  }

  lemma AttemptSequence(l: Local, items: seq<Item>, at: Attempt)
    requires IsAttempt(l, items, at)
    ensures at.cas == LatestSeq(items) && at.item.sequence == NextSeq(at.cas)
  {
  }

  lemma LocalAdByFields(l: Local)
    ensures IsOwnAd(l, LocalAd(l))
    ensures forall c: SignedServiceAd :: c.ad.nodeId == l.node ==>
              (Precedes(LocalAd(l), c) <==> c.ad.publishedAt < l.now
                                            || (c.ad.publishedAt == l.now && c.ad.expiresAt < Expiry(l.now)))
  {
    LexTrichotomy(l.node, l.node);
  }

  lemma PreparedOwnIs(l: Local, merged: seq<SignedServiceAd>, cs: seq<SignedServiceAd>) returns (s: SignedServiceAd)
    requires IsMerge(merged, cs)
    ensures s in Prepared(l, merged) && s.ad.nodeId == l.node && OwnAdIs(l, cs, s)
  {
    PreparedMembers(l, merged, cs);
    MergeHasDistinctNodes(merged, cs);
    LocalAdByFields(l);
    if OwnIsNewest(l, cs) {
      s := LocalAd(l);
    } else {
      var c :| c in cs && c.ad.nodeId == l.node && !Precedes(LocalAd(l), c);
      BestIsBest(cs, l.node);
      s := Best(cs, l.node).value;
      NotLessTransitive(AdKey(s), AdKey(c), AdKey(LocalAd(l)));
      assert s in merged;
    }
    assert UpsertMember(merged, LocalAd(l), s);
  }

  lemma AttemptIsPublished(l: Local, items: seq<Item>, at: Attempt)
    requires IsAttempt(l, items, at) && at.fits
    ensures IsPublished(l, items, at)
  {
    hide Fits, GoodBucket, OwnAdIs, UpsertMember;
    var cs := Candidates(Decoded(items), l.scheme, l.ns, l.now);
    PutIsGood(l, items, at);
    AttemptSequence(l, items, at);
    LatestIsLargest(items);
    var s := PreparedOwnIs(l, at.merged, cs);
    PreparedMembers(l, at.merged, cs);
    OwnIsKept(Prepared(l, at.merged), l.node, at.kept, at.fits, s);
  }

  lemma OwnIsKept(s: seq<SignedServiceAd>, node: NodeId, kept: seq<SignedServiceAd>, fits: bool, m: SignedServiceAd)
    requires Sorted(s, Some(node)) && DistinctNodes(s) && IsTrimmed(DHT_BUCKET_VERSION, s, Some(node), kept, fits)
    requires m in s && m.ad.nodeId == node
    ensures m in kept
  {
    hide Fits;
    if m !in kept {
      EvictedIsPreceded(s, node, kept, fits, m);
    }
  }

  const DHT_PUBLISH_RETRIES: nat := 4

  datatype PutOutcome = Accepted | Contended | QueryFailed
  datatype PublishError = TooLarge | PutFailed | StillContended

  /** `publish_shard`, given what each read returns and how each put ends: at most four attempts, each
      from its own fresh read, retried only after contention. What is put holds the node's own ad, goes on
      top of what was read, and is a good bucket. */
  method PublishShard(l: Local, views: seq<seq<Item>>, outcomes: seq<PutOutcome>)
    returns (result: Result<(), PublishError>, attempts: seq<Attempt>)
    requires |views| == |outcomes| == DHT_PUBLISH_RETRIES
    ensures 1 <= |attempts| <= 4
    ensures forall k :: 0 <= k < |attempts| ==> IsAttempt(l, views[k], attempts[k])
    ensures forall k :: 0 <= k < |attempts| && attempts[k].fits ==> IsPublished(l, views[k], attempts[k])
    ensures forall k :: 0 <= k < |attempts| - 1 ==> attempts[k].fits && outcomes[k] == Contended
    ensures var (last, outcome) := (attempts[|attempts| - 1], outcomes[|attempts| - 1]);
            && (result == Err(TooLarge) <==> !last.fits)
            && (result.Ok? <==> last.fits && outcome == Accepted)
            && (result == Err(PutFailed) <==> last.fits && outcome == QueryFailed)
            && (result == Err(StillContended) ==> |attempts| == DHT_PUBLISH_RETRIES && outcome == Contended)
  {
    hide IsAttempt, IsPublished;
    attempts := [];
    for k := 0 to DHT_PUBLISH_RETRIES
      invariant |attempts| == k
      invariant forall i :: 0 <= i < k ==>
          IsAttempt(l, views[i], attempts[i]) && attempts[i].fits && outcomes[i] == Contended
      invariant forall i :: 0 <= i < k ==> IsPublished(l, views[i], attempts[i])
    {
      var a := MakeAttempt(l, views[k]);
      attempts := attempts + [a];
      if !a.fits {
        return Err(TooLarge), attempts;
      }
      AttemptIsPublished(l, views[k], a);
      match outcomes[k] {
        case Accepted => return Ok(()), attempts;
        case Contended =>
        case QueryFailed => return Err(PutFailed), attempts;
      }
    }
    return Err(StillContended), attempts;
  }

  // ---------------------------------------------------------------------------
  // The shared register
  // ---------------------------------------------------------------------------

  type PublisherId = nat

  /** A publisher between its read and its put, or before its next read. */
  datatype Session = Session(local: Local, view: Option<seq<Item>>)

  datatype State = State(ns: Namespace, stored: Option<Item>, history: seq<Item>, sessions: map<PublisherId, Session>)

  datatype Label =
    | Join(i: PublisherId, local: Local)
    | Read(i: PublisherId, items: seq<Item>)
    | Write(i: PublisherId, at: Attempt)

  predicate Accepts(stored: Option<Item>, item: Item, cas: Option<int>) {
    stored.Some? ==> (cas.Some? ==> cas.value == stored.value.sequence) && item.sequence > stored.value.sequence
  }

  ghost predicate Enabled(s: State, l: Label) {
    match l
    case Join(_, local) => local.ns == s.ns && local.now / 60 == s.ns.minute
    case Read(i, items) => i in s.sessions && forall x :: x in items ==> x in s.history
    case Write(i, at) =>
      && i in s.sessions && s.sessions[i].view.Some?
      && IsAttempt(s.sessions[i].local, s.sessions[i].view.value, at) && at.fits
  }

  function Apply(s: State, l: Label): State
    requires (l.Read? || l.Write?) ==> l.i in s.sessions
  {
    match l
    case Join(i, local) => s.(sessions := s.sessions[i := Session(local, None)])
    case Read(i, items) => s.(sessions := s.sessions[i := s.sessions[i].(view := Some(items))])
    case Write(i, at) =>
      var s' := s.(sessions := s.sessions[i := s.sessions[i].(view := None)]);
      if Accepts(s.stored, at.item, at.cas)
      then s'.(stored := Some(at.item), history := s.history + [at.item])
      else s'
  }

  ghost predicate Run(trace: seq<State>, labels: seq<Label>) {
    && |trace| == |labels| + 1
    && trace[0] == State(trace[0].ns, None, [], map[])
    && forall k :: 0 <= k < |labels| ==> Enabled(trace[k], labels[k]) && trace[k + 1] == Apply(trace[k], labels[k])
  }

  /** An item some publisher put: a good bucket for that publisher. */
  ghost predicate WellWritten(x: Item) {
    exists l, kept :: GoodBucket(l, x.value, kept)
  }

  /** Sequence numbers are positive and strictly increase along the history, which ends with what is
      stored; sessions have only seen items of the history. */
  ghost predicate Inv(s: State) {
    && s.stored == (if s.history == [] then None else Some(s.history[|s.history| - 1]))
    && (forall k :: 0 <= k < |s.history| ==> s.history[k].sequence >= 1)
    && (forall k, m :: 0 <= k < m < |s.history| ==> s.history[k].sequence < s.history[m].sequence)
    && (forall i :: i in s.sessions && s.sessions[i].view.Some? ==>
          forall x :: x in s.sessions[i].view.value ==> x in s.history)
    && (forall i :: i in s.sessions ==> s.sessions[i].local.ns == s.ns)
    && (forall k :: 0 <= k < |s.history| ==> WellWritten(s.history[k]))
  }

  lemma PutIsWellWritten(l: Local, at: Attempt)
    requires GoodBucket(l, at.item.value, at.kept)
    ensures WellWritten(at.item)
  {
  }

  lemma WriteKeepsInv(s: State, l: Label)
    requires Inv(s) && l.Write? && Enabled(s, l)
    ensures Inv(Apply(s, l))
  {
    hide GoodBucket, IsAttempt, Keeps, LatestSeq, WellWritten;
    var local := s.sessions[l.i].local;
    var view := s.sessions[l.i].view.value;
    PutIsGood(local, view, l.at);
    AttemptSequence(local, view, l.at);
    PutIsWellWritten(local, l.at);
    LatestIsLargest(view);
    if view != [] {
      var x :| x in view && x.sequence == LatestSeq(view).value;
      assert x in s.history;
    }
    var s' := s.(sessions := s.sessions[l.i := s.sessions[l.i].(view := None)]);
    assert Inv(s');
    if Accepts(s'.stored, l.at.item, l.at.cas) {
      StoringKeepsInv(s', l.at.item);
    }
  }

  lemma StoringKeepsInv(s: State, item: Item)
    requires Inv(s) && WellWritten(item) && item.sequence >= 1
    requires s.stored.Some? ==> item.sequence > s.stored.value.sequence
    ensures Inv(s.(stored := Some(item), history := s.history + [item]))
  {
    hide WellWritten;
    forall x | x in s.history ensures x in s.history + [item] {
    }
  }

  lemma StepKeepsInv(s: State, l: Label)
    requires Inv(s) && Enabled(s, l)
    ensures Inv(Apply(s, l))
  {
    hide WellWritten, IsAttempt;
    if l.Write? {
      WriteKeepsInv(s, l);
    }
  }

  lemma {:induction false} RunKeepsInv(trace: seq<State>, labels: seq<Label>, k: nat)
    requires Run(trace, labels) && k < |trace|
    ensures Inv(trace[k])
  {
    hide Apply, WellWritten, IsAttempt;
    if k > 0 {
      RunKeepsInv(trace, labels, k - 1);
      assert Enabled(trace[k - 1], labels[k - 1]) && trace[k - 1 + 1] == Apply(trace[k - 1], labels[k - 1]);
      StepKeepsInv(trace[k - 1], labels[k - 1]);
    }
  }

  /** A put that is accepted was made by a publisher that had read the very item it replaces. */
  lemma AcceptedPutSawStored(s: State, l: Label)
    requires Inv(s) && l.Write? && Enabled(s, l)
    requires s.stored.Some? && Accepts(s.stored, l.at.item, l.at.cas)
    ensures s.stored.value in s.sessions[l.i].view.value
  {
    hide Keeps, WellWritten;
    var view := s.sessions[l.i].view.value;
    LatestIsLargest(view);
    assert s.stored.value.sequence >= 1;
    var x :| x in view && x.sequence == LatestSeq(view).value;
    assert x in s.history;
  }

  /** No lost update: whatever publishers interleave, an accepted put has a larger sequence number than
      what it replaces, and every ad of the replaced bucket that was valid at the writer's time is kept,
      superseded, or evicted in order because there was no room for one ad more. */
  lemma NoLostUpdate(trace: seq<State>, labels: seq<Label>, k: nat, replaced: Bucket, a: SignedServiceAd)
    requires Run(trace, labels) && k < |labels| && labels[k].Write? && Enabled(trace[k], labels[k])
    requires trace[k].stored.Some? && trace[k + 1].stored != trace[k].stored
    requires DecodeBucket(trace[k].stored.value.value) == Some(replaced) && replaced.version == DHT_BUCKET_VERSION
             && a in replaced.ads
    requires var l := trace[k].sessions[labels[k].i].local; Verify(l.scheme, l.ns, l.now, a)
    ensures trace[k + 1].stored == Some(labels[k].at.item)
    ensures trace[k].stored.value.sequence < labels[k].at.item.sequence
    ensures var l := trace[k].sessions[labels[k].i].local;
            NotLost(l, Prepared(l, labels[k].at.merged), labels[k].at.kept, a)
  {
    hide WellWritten, NotLost, Keeps;
    var (s, step) := (trace[k], labels[k]);
    var (l, view) := (s.sessions[step.i].local, s.sessions[step.i].view.value);
    RunKeepsInv(trace, labels, k);
    assert trace[k + 1] == Apply(s, step);
    AcceptedPutSawStored(s, step);
    DecodedHas(view, s.stored.value, replaced);
    assert Holds(Decoded(view), a);
    CandidatesAre(Decoded(view), l.scheme, l.ns, l.now, a);
    AttemptLosesNothing(l, view, step.at, a);
  }

  /** What is stored is always a bucket of at most 1000 bytes with one ad per node. */
  lemma StoredIsWellFormed(trace: seq<State>, labels: seq<Label>, k: nat)
    requires Run(trace, labels) && k < |trace| && trace[k].stored.Some?
    ensures var value := trace[k].stored.value.value;
            && |value| <= 1000
            && DecodeBucket(value).Some?
            && DecodeBucket(value).value.version == 2
            && DistinctNodes(DecodeBucket(value).value.ads)
  {
    RunKeepsInv(trace, labels, k);
    var x := trace[k].stored.value;
    assert WellWritten(x);
  }

  // ---------------------------------------------------------------------------
  // Publish, then resolve
  // ---------------------------------------------------------------------------

  /** A bucket that was put, read back and merged at any later time, yields exactly its unexpired ads in
      key order. */
  lemma ResolvesToUnexpired(l: Local, items: seq<Item>, at: Attempt, later: U64, found: seq<SignedServiceAd>)
    requires IsAttempt(l, items, at) && at.fits && l.now <= later
    requires Verify(l.scheme, l.ns, l.now, LocalAd(l))
    requires IsMerge(found, Candidates(Decoded([at.item]), l.scheme, l.ns, later))
    ensures Listed(found)
    ensures forall x :: x in found <==> x in at.kept && later < x.ad.expiresAt
  {
    hide Keeps, IsTrimmed;
    PutIsGood(l, items, at);
    var b := Bucket(DHT_BUCKET_VERSION, at.kept);
    DecodedHas([at.item], at.item, b);
    assert [at.item][1..] == [];
    assert Decoded([at.item]) == [b];
    var cs := Candidates([b], l.scheme, l.ns, later);
    forall x ensures x in cs <==> x in at.kept && later < x.ad.expiresAt {
      CandidatesAre([b], l.scheme, l.ns, later, x);
      assert Holds([b], x) <==> x in at.kept by { assert b in [b]; }
      if x in at.kept {
        ValidUntilExpiry(l.scheme, l.ns, x, l.now, later);
      }
    }
    OnePerNodeMergesToItself(at.kept, cs, found);
    MergeKeepsNewest(found, cs);
  }

  lemma OnePerNodeMergesToItself(kept: seq<SignedServiceAd>, cs: seq<SignedServiceAd>, found: seq<SignedServiceAd>)
    requires DistinctNodes(kept) && (forall x :: x in cs ==> x in kept) && IsMerge(found, cs)
    ensures forall x :: x in found <==> x in cs
  {
    forall x | x in cs ensures Best(cs, x.ad.nodeId) == Some(x) {
      forall y | y in cs && y.ad.nodeId == x.ad.nodeId ensures y == x {
        var i :| 0 <= i < |kept| && kept[i] == x;
        var j :| 0 <= j < |kept| && kept[j] == y;
      }
      BestWhenUnique(cs, x);
    }
    MergeHasDistinctNodes(found, cs);
  }

  /** So the publisher's node is found until the stored ad of that node expires: the one it has just made or,
      if that is not the newest, the one it has read. */
  lemma PublisherIsFound(l: Local, items: seq<Item>, at: Attempt, later: U64, found: seq<SignedServiceAd>)
    returns (own: SignedServiceAd)
    requires IsAttempt(l, items, at) && at.fits && l.now <= later
    requires Verify(l.scheme, l.ns, l.now, LocalAd(l))
    requires IsMerge(found, Candidates(Decoded([at.item]), l.scheme, l.ns, later))
    ensures own in at.kept && OwnAdIs(l, Candidates(Decoded(items), l.scheme, l.ns, l.now), own)
    ensures own in found <==> later < own.ad.expiresAt
  {
    hide Keeps, IsTrimmed;
    AttemptIsPublished(l, items, at);
    own :| own in at.kept && OwnAdIs(l, Candidates(Decoded(items), l.scheme, l.ns, l.now), own);
    ResolvesToUnexpired(l, items, at, later, found);
  }
}
