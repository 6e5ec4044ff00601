// Discovery: the engine that merges peer feeds without repetition (src/swarm/engine.rs) and the locator
// that races connection attempts to what it yields (src/swarm/locator.rs).

module Engine {

  type PeerId = nat
  type Failure = nat

  /** A peer as tagged by the feed it came from. */
  datatype Peer = Peer(id: PeerId, source: string, sourceTrust: nat)

  /** What a feed yields. */
  datatype Found = Discovered(peer: Peer) | Failed(failure: Failure)

  /** One poll of the merged stream; its end is the end of the sequence of polls. */
  datatype Polled = Item(found: Found) | NotReady

  datatype Scope = Any | Service(alpn: seq<int>)

  datatype PeerFeedSpec = PeerFeedSpec(name: string, priority: nat, trust: nat, scope: Scope, stream: seq<Found>)

  predicate ScopeMatches(scope: Scope, alpn: seq<int>) {
    match scope
    case Any => true
    case Service(s) => s == alpn
  }

  /** The streams that are merged: those whose scope matches. Their order only affects which interleavings
      the merged stream prefers. */
  function Matching(feeds: seq<PeerFeedSpec>, alpn: seq<int>): seq<seq<Found>> {
    if feeds == [] then []
    else if ScopeMatches(feeds[0].scope, alpn) then [feeds[0].stream] + Matching(feeds[1..], alpn)
    else Matching(feeds[1..], alpn)
  }

  /** `merged` takes the items of all feeds, each feed in its order, with any number of idle polls. */
  ghost predicate Interleaves(feeds: seq<seq<Found>>, merged: seq<Polled>)
    decreases |merged|
  {
    if merged == [] then forall f :: 0 <= f < |feeds| ==> feeds[f] == []
    else if merged[0].NotReady? then Interleaves(feeds, merged[1..])
    else exists f :: 0 <= f < |feeds| && feeds[f] != [] && feeds[f][0] == merged[0].found
                     && Interleaves(feeds[f := feeds[f][1..]], merged[1..])
  }

  // ---------------------------------------------------------------------------
  // The engine
  // ---------------------------------------------------------------------------

  /** What one poll of the engine returns. */
  datatype Output = Yield(found: Found) | End | Pending

  predicate Skips(local: PeerId, seen: set<PeerId>, found: Found) {
    found.Discovered? && (found.peer.id == local || found.peer.id in seen)
  }

  function Seen(seen: set<PeerId>, found: Found): set<PeerId> {
    if found.Discovered? then seen + {found.peer.id} else seen
  }

  /** Everything the engine yields over the rest of the merged stream. */
  function Outputs(local: PeerId, seen: set<PeerId>, inner: seq<Polled>): seq<Found>
    decreases |inner|
  {
    if inner == [] then []
    else if inner[0].NotReady? || Skips(local, seen, inner[0].found) then Outputs(local, seen, inner[1..])
    else [inner[0].found] + Outputs(local, Seen(seen, inner[0].found), inner[1..])
  }

  class SwarmEngine {
    var inner: seq<Polled>
    var seen: set<PeerId>
    const localId: PeerId

    constructor (localId: PeerId, merged: seq<Polled>)
      ensures this.localId == localId && inner == merged && seen == {}
      ensures Rest() == Outputs(localId, {}, merged)
    {
      this.localId, this.inner, this.seen := localId, merged, {};
    }

    ghost function Rest(): seq<Found>
      reads this
    {
      Outputs(localId, seen, inner)
    }

    method PollNext() returns (out: Output)
      modifies this`inner, this`seen
      ensures out.Yield? ==> old(Rest()) == [out.found] + Rest() && |inner| < |old(inner)|
      ensures out.End? ==> old(Rest()) == [] && inner == [] && seen == old(seen)
      ensures out.Pending? ==> Rest() == old(Rest()) && seen == old(seen) && |inner| < |old(inner)|
      ensures |inner| <= |old(inner)| && inner == old(inner)[|old(inner)| - |inner|..]
      ensures out.Pending? ==> old(inner)[|old(inner)| - |inner| - 1] == NotReady
      ensures out.Yield? ==> old(inner)[|old(inner)| - |inner| - 1] == Item(out.found)
      ensures forall k :: 0 <= k < |old(inner)| - |inner| - (if out.End? then 0 else 1) ==>
                old(inner)[k].Item? && Skips(localId, old(seen), old(inner)[k].found)
    {
      ghost var taken: nat := 0;
      while inner != []
        invariant Rest() == old(Rest()) && seen == old(seen)
        invariant taken == |old(inner)| - |inner| <= |old(inner)| && inner == old(inner)[taken..]
        invariant forall k :: 0 <= k < taken ==>
                    old(inner)[k].Item? && Skips(localId, old(seen), old(inner)[k].found)
        decreases |inner|
      {
        assert inner[0] == old(inner)[taken];
        var polled := inner[0];
        inner := inner[1..];
        taken := taken + 1;
        match polled {
          case NotReady => return Pending;
          case Item(Failed(e)) => return Yield(Failed(e));
          case Item(Discovered(peer)) =>
            if peer.id == localId {
              continue;
            }
            if peer.id !in seen {
              seen := seen + {peer.id};
              return Yield(Discovered(peer));
            }
        }
      }
      return End;
    }
  }

  /** Polling to the end yields exactly `Outputs`. */
  method Drain(engine: SwarmEngine) returns (yielded: seq<Found>)
    modifies engine
    ensures yielded == old(engine.Rest())
  {
    yielded := [];
    while true
      invariant yielded + engine.Rest() == old(engine.Rest())
      decreases |engine.inner|
    {
      var out := engine.PollNext();
      match out {
        case Yield(found) => yielded := yielded + [found];
        case Pending =>
        case End => break;
      }
    }
  }

  // ---------------------------------------------------------------------------
  // Exactly once, at the first occurrence
  // ---------------------------------------------------------------------------

  function Ids(found: seq<Found>): seq<PeerId> {
    if found == [] then []
    else if found[0].Discovered? then [found[0].peer.id] + Ids(found[1..])
    else Ids(found[1..])
  }

  function Items(inner: seq<Polled>): seq<Found> {
    if inner == [] then []
    else if inner[0].Item? then [inner[0].found] + Items(inner[1..])
    else Items(inner[1..])
  }

  ghost predicate Distinct(s: seq<PeerId>) {
    forall i, j :: 0 <= i < j < |s| ==> s[i] != s[j]
  }

  lemma {:induction false} EmittedIds(local: PeerId, seen: set<PeerId>, inner: seq<Polled>)
    ensures var ids := Ids(Outputs(local, seen, inner));
            && Distinct(ids)
            && forall id :: id in ids <==> id in Ids(Items(inner)) && id != local && id !in seen
    decreases |inner|
  {
    if inner != [] {
      if inner[0].NotReady? {
        EmittedIds(local, seen, inner[1..]);
      } else {
        var found := inner[0].found;
        EmittedIds(local, seen, inner[1..]);
        EmittedIds(local, Seen(seen, found), inner[1..]);
        assert Items(inner) == [found] + Items(inner[1..]);
        assert ([found] + Items(inner[1..]))[1..] == Items(inner[1..]);
        var rest := Outputs(local, Seen(seen, found), inner[1..]);
        assert ([found] + rest)[1..] == rest;
      }
    }
  }

  /** Peers that arrived before. */
  function IdsOf(inner: seq<Polled>): set<PeerId> {
    set id | id in Ids(Items(inner))
  }

  lemma IdsOfTail(inner: seq<Polled>)
    requires inner != []
    ensures IdsOf(inner) ==
            if inner[0].Item? && inner[0].found.Discovered? then {inner[0].found.peer.id} + IdsOf(inner[1..])
            else IdsOf(inner[1..])
  {
    if inner[0].Item? {
      assert Items(inner)[1..] == Items(inner[1..]);
    }
  }

  lemma {:induction false} OutputsOfConcat(local: PeerId, seen: set<PeerId>, a: seq<Polled>, b: seq<Polled>)
    ensures Outputs(local, seen, a + b) ==
            Outputs(local, seen, a) + Outputs(local, seen + (IdsOf(a) - {local}), b)
    decreases |a|
  {
    if a == [] {
      assert a + b == b && seen + (IdsOf(a) - {local}) == seen;
      assert Outputs(local, seen, a) == [];
    } else {
      assert (a + b)[1..] == a[1..] + b;
      IdsOfTail(a);
      if a[0].NotReady? || Skips(local, seen, a[0].found) {
        OutputsOfConcat(local, seen, a[1..], b);
        assert seen + (IdsOf(a) - {local}) == seen + (IdsOf(a[1..]) - {local});
      } else {
        var now := Seen(seen, a[0].found);
        OutputsOfConcat(local, now, a[1..], b);
        assert seen + (IdsOf(a) - {local}) == now + (IdsOf(a[1..]) - {local});
      }
    }
  }

  /** An arriving peer is yielded exactly if it is not the local node and none with its id came before;
      an error always is. */
  lemma YieldedAtFirstOccurrence(local: PeerId, before: seq<Polled>, found: Found)
    ensures Outputs(local, {}, before + [Item(found)]) ==
            Outputs(local, {}, before)
            + if found.Discovered? && (found.peer.id == local || found.peer.id in IdsOf(before)) then [] else [found]
  {
    OutputsOfConcat(local, {}, before, [Item(found)]);
    var seen := {} + (IdsOf(before) - {local});
    assert [Item(found)][1..] == [];
    assert Outputs(local, seen, [Item(found)]) == if Skips(local, seen, found) then [] else [found];
  }

  ghost predicate InSomeFeed(feeds: seq<seq<Found>>, id: PeerId) {
    exists f :: 0 <= f < |feeds| && id in Ids(feeds[f])
  }

  lemma {:induction false} InterleavingHasAllIds(feeds: seq<seq<Found>>, merged: seq<Polled>, id: PeerId)
    requires Interleaves(feeds, merged)
    ensures id in Ids(Items(merged)) <==> InSomeFeed(feeds, id)
    decreases |merged|
  {
    if merged != [] {
      if merged[0].NotReady? {
        InterleavingHasAllIds(feeds, merged[1..], id);
      } else {
        var f :| 0 <= f < |feeds| && feeds[f] != [] && feeds[f][0] == merged[0].found
                 && Interleaves(feeds[f := feeds[f][1..]], merged[1..]);
        var rest := feeds[f := feeds[f][1..]];
        InterleavingHasAllIds(rest, merged[1..], id);
        var head := merged[0].found;
        assert Items(merged)[1..] == Items(merged[1..]);
        assert id in Ids(feeds[f]) <==> (head.Discovered? && id == head.peer.id) || id in Ids(rest[f]);
        if g :| 0 <= g < |feeds| && g != f && id in Ids(feeds[g]) {
          assert id in Ids(rest[g]);
        }
        if g :| 0 <= g < |rest| && id in Ids(rest[g]) {
          assert g != f ==> id in Ids(feeds[g]);
        }
      }
    }
  }

  /** However the matching feeds interleave, each distinct peer in them other than the local node is
      yielded exactly once. */
  lemma EachPeerOnce(local: PeerId, feeds: seq<PeerFeedSpec>, alpn: seq<int>, merged: seq<Polled>)
    requires Interleaves(Matching(feeds, alpn), merged)
    ensures Distinct(Ids(Outputs(local, {}, merged)))
    ensures forall id :: id in Ids(Outputs(local, {}, merged)) <==> id != local && InSomeFeed(Matching(feeds, alpn), id)
  {
    EmittedIds(local, {}, merged);
    forall id ensures id in Ids(Items(merged)) <==> InSomeFeed(Matching(feeds, alpn), id) {
      InterleavingHasAllIds(Matching(feeds, alpn), merged, id);
    }
  }

  /** Feeds of other services contribute nothing. */
  lemma {:induction false} MatchingFeeds(feeds: seq<PeerFeedSpec>, alpn: seq<int>, id: PeerId)
    ensures InSomeFeed(Matching(feeds, alpn), id) <==>
            exists spec :: spec in feeds && (spec.scope.Any? || spec.scope.alpn == alpn) && id in Ids(spec.stream)
  {
    if feeds != [] {
      MatchingFeeds(feeds[1..], alpn, id);
      var (m, rest) := (Matching(feeds, alpn), Matching(feeds[1..], alpn));
      assert forall spec :: spec in feeds <==> spec == feeds[0] || spec in feeds[1..];
      if f :| 0 <= f < |rest| && id in Ids(rest[f]) {
        assert m[f + |m| - |rest|] == rest[f];
      }
      if f :| 0 <= f < |m| && id in Ids(m[f]) {
        assert m[f] == feeds[0].stream || m[f] == rest[f - (|m| - |rest|)];
      }
      if ScopeMatches(feeds[0].scope, alpn) {
        assert m[0] == feeds[0].stream;
      }
    }
  }
}

module Locator {
  import opened Wrappers
  import opened Engine

  /** A message on the result channel. */
  datatype Outcome =
    | Connected(id: PeerId)
    | AttemptFailed(id: PeerId, reason: Failure)
    | DiscoveryFailed(failure: Failure)

  /** The peers whose attempts these outcomes report. */
  function Reported(outcomes: seq<Outcome>): multiset<PeerId> {
    if outcomes == [] then multiset{}
    else
      var last := outcomes[|outcomes| - 1];
      Reported(outcomes[..|outcomes| - 1]) + if last.DiscoveryFailed? then multiset{} else multiset{last.id}
  }

  /** The discovery errors among these outcomes. */
  function Failures(outcomes: seq<Outcome>): seq<Failure> {
    if outcomes == [] then []
    else
      var last := outcomes[|outcomes| - 1];
      Failures(outcomes[..|outcomes| - 1]) + if last.DiscoveryFailed? then [last.failure] else []
  }

  /** The discovery errors among what the stream yields. */
  function FailuresOf(found: seq<Found>): seq<Failure> {
    if found == [] then []
    else
      var last := found[|found| - 1];
      FailuresOf(found[..|found| - 1]) + if last.Failed? then [last.failure] else []
  }

  lemma {:induction false} FailuresOfCount(found: seq<Found>)
    ensures |FailuresOf(found)| == FailuresIn(found)
  {
    if found != [] {
      FailuresOfCount(found[..|found| - 1]);
    }
  }

  function FailuresIn(found: seq<Found>): nat {
    if found == [] then 0
    else FailuresIn(found[..|found| - 1]) + if found[|found| - 1].Failed? then 1 else 0
  }

  lemma {:induction false} IdsOfAppend(found: seq<Found>, x: Found)
    ensures Ids(found + [x]) == Ids(found) + if x.Discovered? then [x.peer.id] else []
  {
    if found == [] {
      assert found + [x] == [x] && [x][1..] == [];
    } else {
      assert (found + [x])[1..] == found[1..] + [x];
      IdsOfAppend(found[1..], x);
    }
  }

  lemma ReportedAppend(outcomes: seq<Outcome>, o: Outcome)
    ensures Reported(outcomes + [o]) == Reported(outcomes) + if o.DiscoveryFailed? then multiset{} else multiset{o.id}
    ensures Failures(outcomes + [o]) == Failures(outcomes) + if o.DiscoveryFailed? then [o.failure] else []
  {
    assert (outcomes + [o])[..|outcomes|] == outcomes;
  }

  /** What a run has done: attempts begun, outcomes delivered, outcomes whose receiver was gone, and the
      most attempts ever in flight. */
  datatype Log = Log(attempts: seq<PeerId>, sent: seq<Outcome>, lost: seq<Outcome>, peak: nat)

  /** Every peer taken from the stream has been attempted once, every attempt is in flight, delivered or
      lost, and so is every discovery error, as the error that it was. */
  ghost predicate Conserves(taken: seq<Found>, log: Log, inflight: seq<PeerId>, maxInflight: nat) {
    && log.attempts == Ids(taken)
    && multiset(log.attempts) == Reported(log.sent) + Reported(log.lost) + multiset(inflight)
    && SameFailures(FailuresOf(taken), Failures(log.sent), Failures(log.lost))
    && |inflight| <= log.peak <= maxInflight
  }

  /** The failures sent and lost are those taken. */
  ghost predicate SameFailures(taken: seq<Failure>, sent: seq<Failure>, lost: seq<Failure>) {
    multiset(taken) == multiset(sent) + multiset(lost)
  }

  lemma OneMoreFailure(taken: seq<Failure>, sent: seq<Failure>, lost: seq<Failure>, f: Failure)
    requires SameFailures(taken, sent, lost)
    ensures SameFailures(taken + [f], sent + [f], lost) && SameFailures(taken + [f], sent, lost + [f])
  {
  }

  /** `after` is `before` with one attempt for `id` taken out. */
  ghost predicate OneLess(before: seq<PeerId>, after: seq<PeerId>, id: PeerId) {
    |after| == |before| - 1 && multiset(before) == multiset(after) + multiset{id}
  }

  lemma NothingYetConserves(maxInflight: nat)
    ensures Conserves([], Log([], [], [], 0), [], maxInflight)
  {
  }

  lemma CompletedConserves(taken: seq<Found>, log: Log, before: seq<PeerId>, after: seq<PeerId>, maxInflight: nat,
                           outcome: Outcome, there: bool)
    requires Conserves(taken, log, before, maxInflight) && !outcome.DiscoveryFailed?
             && OneLess(before, after, outcome.id)
    ensures Conserves(taken, Reply(log, outcome, there), after, maxInflight)
  {
    ReportedAppend(log.sent, outcome);
    ReportedAppend(log.lost, outcome);
  }

  lemma AttemptConserves(taken: seq<Found>, log: Log, inflight: seq<PeerId>, maxInflight: nat, peer: Peer)
    requires Conserves(taken, log, inflight, maxInflight) && |inflight| < maxInflight
    ensures Conserves(taken + [Discovered(peer)], Attempted(log, peer.id, |inflight| + 1),
                      inflight + [peer.id], maxInflight)
  {
    IdsOfAppend(taken, Discovered(peer));
    assert (taken + [Discovered(peer)])[..|taken|] == taken;
  }

  lemma ErrorConserves(taken: seq<Found>, log: Log, inflight: seq<PeerId>, maxInflight: nat, failure: Failure,
                       there: bool)
    requires Conserves(taken, log, inflight, maxInflight)
    ensures Conserves(taken + [Failed(failure)], Reply(log, DiscoveryFailed(failure), there), inflight, maxInflight)
  {
    hide SameFailures, Ids, Reported, Failures;
    IdsOfAppend(taken, Failed(failure));
    assert (taken + [Failed(failure)])[..|taken|] == taken;
    ReportedAppend(log.sent, DiscoveryFailed(failure));
    ReportedAppend(log.lost, DiscoveryFailed(failure));
    OneMoreFailure(FailuresOf(taken), Failures(log.sent), Failures(log.lost), failure);
  }

  /** One send on the result channel, to a receiver that is there or not. */
  function Reply(log: Log, outcome: Outcome, there: bool): Log {
    if there then log.(sent := log.sent + [outcome]) else log.(lost := log.lost + [outcome])
  }

  function Attempted(log: Log, id: PeerId, inflight: nat): Log {
    log.(attempts := log.attempts + [id], peak := if inflight > log.peak then inflight else log.peak)
  }

  class LocatorState {
    var peers: seq<Found>
    var inflight: seq<PeerId>
    var streamExhausted: bool
    const maxInflight: nat

    constructor (peers: seq<Found>, maxInflight: nat)
      ensures this.peers == peers && inflight == [] && !streamExhausted && this.maxInflight == maxInflight
    {
      this.peers, this.inflight, this.streamExhausted, this.maxInflight := peers, [], false, maxInflight;
    }

    method PushAttempt(peer: Peer)
      modifies this`inflight
      ensures inflight == old(inflight) + [peer.id]
    {
      inflight := inflight + [peer.id];
    }

    /** Some attempt in flight completes, in any order and either way. */
    method CompleteAttempt() returns (outcome: Outcome)
      requires inflight != []
      modifies this`inflight
      ensures !outcome.DiscoveryFailed?
      ensures |inflight| == |old(inflight)| - 1 && OneLess(old(inflight), inflight, outcome.id)
    {
      var i :| 0 <= i < |inflight|;
      var id := inflight[i];
      assert inflight == inflight[..i] + [id] + inflight[i + 1..];
      inflight := inflight[..i] + inflight[i + 1..];
      if * {
        outcome := Connected(id);
      } else {
        var reason: Failure :| true;
        outcome := AttemptFailed(id, reason);
      }
    }

    /** The first arm of the select: an outcome is taken and sent. If not `safe`, the receiver may be gone or
        the overall timeout may end the run during the send, and the outcome is lost. */
    method DeliverOne(ghost taken: seq<Found>, log: Log, safe: bool) returns (log': Log, lost: bool)
      requires inflight != [] && Conserves(taken, log, inflight, maxInflight)
      modifies this`inflight
      ensures Conserves(taken, log', inflight, maxInflight) && |inflight| == |old(inflight)| - 1
      ensures safe ==> !lost
      ensures |log'.lost| == |log.lost| + if lost then 1 else 0
    {
      ghost var before := inflight;
      var outcome := CompleteAttempt();
      lost := *;
      lost := lost && !safe;
      CompletedConserves(taken, log, before, inflight, maxInflight, outcome, !lost);
      log' := Reply(log, outcome, !lost);
    }

    /** The second arm: the next peer is attempted, the next error passed on, which may be lost likewise. */
    method DiscoverOne(ghost taken: seq<Found>, found: Found, log: Log, safe: bool) returns (log': Log, lost: bool)
      requires |inflight| < maxInflight && Conserves(taken, log, inflight, maxInflight)
      modifies this`inflight
      ensures Conserves(taken + [found], log', inflight, maxInflight) && |inflight| <= |old(inflight)| + 1
      ensures safe ==> !lost
      ensures |log'.lost| == |log.lost| + if lost then 1 else 0
    {
      lost := false;
      match found
      case Discovered(peer) =>
        AttemptConserves(taken, log, inflight, maxInflight, peer);
        PushAttempt(peer);
        log' := Attempted(log, peer.id, |inflight|);
      case Failed(failure) =>
        lost := *;
        lost := lost && !safe;
        ErrorConserves(taken, log, inflight, maxInflight, failure, !lost);
        log' := Reply(log, DiscoveryFailed(failure), !lost);
    }

    /** `run`. The select takes any ready arm. With `timed` the overall timeout may end the run at any await:
        between rounds, or during a send, whose message is then lost. Without `live` any send may find the
        receiver gone: a discovery error that cannot be delivered is ignored, an outcome ends the run. */
    method Run(timed: bool, live: bool) returns (taken: seq<Found>, log: Log)
      requires inflight == [] && !streamExhausted
      modifies this`peers, this`inflight, this`streamExhausted
      ensures old(peers) == taken + peers && Conserves(taken, log, inflight, maxInflight)
      ensures live && !timed ==> log.lost == []
      ensures live ==> |log.lost| <= 1
      ensures live && !timed && maxInflight >= 1 ==> streamExhausted && peers == [] && inflight == []
      ensures maxInflight == 0 ==> taken == [] && inflight == []
    {
      hide Conserves;
      taken, log := [], Log([], [], [], 0);
      NothingYetConserves(maxInflight);
      while true
        invariant old(peers) == taken + peers && Conserves(taken, log, inflight, maxInflight)
        invariant streamExhausted ==> peers == []
        invariant live ==> log.lost == []
        invariant maxInflight == 0 ==> taken == [] && inflight == []
        decreases 2 * |peers| + |inflight|, !streamExhausted
      {
        var canDiscover := !streamExhausted && |inflight| < maxInflight;
        var hasInflight := inflight != [];
        if !canDiscover && !hasInflight {
          break;
        }
        var expires: bool, completes: bool, lost: bool := *, *, *;
        if timed && expires {
          break;
        }
        if hasInflight && (!canDiscover || completes) {
          log, lost := DeliverOne(taken, log, live && !timed);
          if lost {
            break;
          }
        } else if peers == [] {
          streamExhausted := true;
        } else {
          var found := peers[0];
          log, lost := DiscoverOne(taken, found, log, live && !timed);
          taken, peers := taken + [found], peers[1..];
          if lost && live {
            break;
          }
        }
      }
    }
  }

  lemma {:induction false} OutcomeCount(outcomes: seq<Outcome>)
    ensures |Reported(outcomes)| + |Failures(outcomes)| == |outcomes|
  {
    if outcomes != [] {
      OutcomeCount(outcomes[..|outcomes| - 1]);
    }
  }

  /** Discovery to locator, end to end: whatever the feeds' interleaving and the order of completions, each
      distinct remote peer of the matching feeds is attempted exactly once, and with a live receiver and
      no timeout every attempt and every discovery error has been delivered when the run ends. */
  method DiscoverAndLocate(local: PeerId, feeds: seq<PeerFeedSpec>, alpn: seq<int>, merged: seq<Polled>,
                           maxInflight: nat)
    returns (log: Log)
    requires Interleaves(Matching(feeds, alpn), merged) && maxInflight >= 1
    ensures Distinct(log.attempts)
    ensures forall id :: id in log.attempts <==> id != local && InSomeFeed(Matching(feeds, alpn), id)
    ensures multiset(log.attempts) == Reported(log.sent)
    ensures |log.sent| == |log.attempts| + FailuresIn(Outputs(local, {}, merged))
    ensures multiset(Failures(log.sent)) == multiset(FailuresOf(Outputs(local, {}, merged)))
    ensures log.lost == [] && log.peak <= maxInflight
  {
    var engine := new SwarmEngine(local, merged);
    var found := Drain(engine);
    var locator := new LocatorState(found, maxInflight);
    var taken;
    taken, log := locator.Run(false, true);
    assert taken == found by { assert taken + [] == taken; }
    EachPeerOnce(local, feeds, alpn, merged);
    OutcomeCount(log.sent);
    FailuresOfCount(found);
    assert |multiset(FailuresOf(found))| == |FailuresOf(found)|;
    assert |multiset(Failures(log.sent))| == |Failures(log.sent)|;
    assert |multiset(log.attempts)| == |log.attempts|;
  }

  // ---------------------------------------------------------------------------
  // The caller
  // ---------------------------------------------------------------------------

  /** `first`: the earliest success, else the last error received, else the fixed error (here `None`). */
  method First(received: seq<Outcome>) returns (result: Result<PeerId, Option<Outcome>>)
    ensures result.Ok? ==> exists i :: 0 <= i < |received| && received[i] == Connected(result.value)
                                       && forall j :: 0 <= j < i ==> !received[j].Connected?
    ensures result.Err? <==> forall i :: 0 <= i < |received| ==> !received[i].Connected?
    ensures result.Err? ==> result.error == if received == [] then None else Some(received[|received| - 1])
  {
    var lastError: Option<Outcome> := None;
    for i := 0 to |received|
      invariant forall j :: 0 <= j < i ==> !received[j].Connected?
      invariant lastError == if i == 0 then None else Some(received[i - 1])
    {
      if received[i].Connected? {
        return Ok(received[i].id);
      }
      lastError := Some(received[i]);
    }
    return Err(lastError);
  }
}
