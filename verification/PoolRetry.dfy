// `open_stream` (src/pool.rs:704-765) played in a run of the pool: its requests, its invalidations and the leases
// it gets are steps of the run.

module PoolRetry {
  import opened Wrappers
  import opened PoolTable
  import opened PoolProtocol
  import opened PoolInvariant
  import opened PoolSteps
  import opened PoolTheorems
  import opened PoolClient

  /** A request of the caller: the step that sends it and the step that settles it. */
  datatype Exchange = Exchange(sent: nat, settled: nat)

  /** The run sends the request and gives it this reply. A request that could not be sent, or whose reply
      channel was dropped, needs no step. */
  ghost predicate PlaysReply(trace: seq<State>, labels: seq<Label>, p: Peer, reply: Reply, x: Exchange)
    requires Run(trace, labels)
  {
    reply.Granted? || reply.Refused? ==>
      && x.sent < x.settled < |labels|
      && labels[x.sent].SendRequest? && labels[x.sent].p == p
      && (reply.Granted? ==> Grants(trace[x.settled], labels[x.settled], labels[x.sent].r, reply.generation))
      && (reply.Refused? ==> Answers(trace[x.settled], labels[x.settled], labels[x.sent].r)
                             && labels[x.sent].r in trace[x.settled + 1].places
                             && trace[x.settled + 1].places[labels[x.sent].r] == Answered(Refusal(reply.error)))
  }

  /** One round of `open_stream` between steps `from` and `to`: its requests in order, each settled before
      the next is sent. */
  ghost predicate PlaysRound(trace: seq<State>, labels: seq<Label>, p: Peer, round: Round, xs: seq<Exchange>,
                             from: nat, to: nat)
    requires Run(trace, labels)
  {
    && TwoReplies(round.replies) && |xs| == Sent(round)
    && (forall m :: 0 <= m < |xs| ==>
         from <= xs[m].sent && xs[m].settled < to && PlaysReply(trace, labels, p, round.replies[m], xs[m]))
    && (forall m :: 0 < m < |xs| ==> xs[m - 1].settled < xs[m].sent)
  }

  /** `invalidate`: the caller sends a shutdown for its lease, or finds the pool stopped. */
  ghost predicate PlaysInvalidate(trace: seq<State>, labels: seq<Label>, r: RequestId, g: Generation, at: nat)
    requires Run(trace, labels)
  {
    && at < |labels|
    && (!trace[at].running || (labels[at] == Invalidate(r) && r in trace[at].leases && trace[at].leases[r] == g))
  }

  /** A granted generation belongs to the peer that was asked for. */
  lemma GrantIsForPeer(trace: seq<State>, labels: seq<Label>, p: Peer, reply: Reply, x: Exchange)
    requires Run(trace, labels) && reply.Granted? && PlaysReply(trace, labels, p, reply, x)
    ensures reply.generation in trace[x.settled].actors && trace[x.settled].actors[reply.generation].id == p
  {
    hide Apply, Inv;
    var r := labels[x.sent].r;
    RunKeepsInv(trace, labels, x.sent);
    assert Step(trace[x.sent], labels[x.sent], trace[x.sent + 1]);
    SentForPeer(trace[x.sent], labels[x.sent], r, p);
    ForPeerFrom(trace, labels, x.sent + 1, x.settled, r, p);
    RunKeepsInv(trace, labels, x.settled);
    MailedAtGrant(trace[x.settled], labels[x.settled], r, reply.generation);
  }

  /** Request `r` asks for `p`: in the queue by its message, later by the peer of the actor that has it. */
  ghost predicate ForPeer(s: State, r: RequestId, p: Peer) {
    && r in s.places
    && match s.places[r]
       case Queued => forall i :: 0 <= i < |s.queue| && s.queue[i].Request? && s.queue[i].req == r ==>
           s.queue[i].id == p
       case Forwarding(g) => g in s.actors && s.actors[g].id == p
       case Mailed(g) => g in s.actors && s.actors[g].id == p
       case _ => true
  }

  lemma SentForPeer(s: State, l: Label, r: RequestId, p: Peer)
    requires Enabled(s, l) && l == SendRequest(r, p)
    requires Inv(s)
    ensures ForPeer(Apply(s, l), r, p)
  {
    assert !At(s, r, Queued);
    forall i | 0 <= i < |s.queue| && s.queue[i].Request? ensures s.queue[i].req in QueuedRequests(s.queue) {
    }
  }

  /** The queue keeps what it says about `r`. */
  lemma QueueForPeer(s: State, s': State, r: RequestId, p: Peer)
    requires ForPeer(s, r, p) && s.places[r].Queued? && r in s'.places && s'.places[r].Queued?
    requires forall i :: 0 <= i < |s'.queue| && s'.queue[i].Request? && s'.queue[i].req == r ==> s'.queue[i] in s.queue
    ensures ForPeer(s', r, p)
  {
    forall i | 0 <= i < |s'.queue| && s'.queue[i].Request? && s'.queue[i].req == r ensures s'.queue[i].id == p {
      var k :| 0 <= k < |s.queue| && s.queue[k] == s'.queue[i];
    }
  }

  lemma HandledForPeer(s: State, s': State, e: Effect, r: RequestId, p: Peer)
    requires SlotsOk(s) && Handled(s, s', e) && ForPeer(s, r, p) && s.places[r].Queued? && r in s'.places
    requires e.Spawned? ==> e.id == s.queue[0].id
    requires e.Forwarded? ==> Matches(s.table, s.queue[0].id, e.generation)
    ensures ForPeer(s', r, p)
  {
    if s'.places[r].Queued? {
      forall i | 0 <= i < |s'.queue| && s'.queue[i].Request? && s'.queue[i].req == r ensures s'.queue[i] in s.queue {
        assert s.queue[i + 1] == s'.queue[i];
      }
      QueueForPeer(s, s', r, p);
    }
  }

  lemma GrownForPeer(s: State, s': State, r: RequestId, p: Peer)
    requires Grows(s, s') && ForPeer(s, r, p) && s.places[r].Queued? && r in s'.places && s'.places[r].Queued?
    ensures ForPeer(s', r, p)
  {
    forall i | 0 <= i < |s'.queue| && s'.queue[i].Request? && s'.queue[i].req == r ensures s'.queue[i] in s.queue {
      assert i < |s.queue| ==> s'.queue[i] == s.queue[i];
    }
    QueueForPeer(s, s', r, p);
  }

  lemma StepKeepsForPeer(s: State, l: Label, r: RequestId, p: Peer)
    requires Inv(s) && Enabled(s, l) && ForPeer(s, r, p)
    ensures ForPeer(Apply(s, l), r, p)
  {
    hide HandleMsg, ApplyLocal, ApplyForward, ActorsOk, CountsOk, AnnouncedOk, PlacesOk, TrackedOk;
    StepFollows(s, l, r);
    if s.places[r].Queued? {
      if l.Handle? {
        var e := HandleIsHandled(s);
        HandleFrame(s.table, s.limit, s.queue[0], SlotOutcome(s, s.queue[0].id));
        HandledForPeer(s, ApplyHandle(s), e, r, p);
      } else if Apply(s, l).places[r].Queued? {
        if !l.PoolDrop? {
          QueueGrows(s, l);
          GrownForPeer(s, Apply(s, l), r, p);
        }
      }
    } else if s.places[r].Forwarding? || s.places[r].Mailed? {
      ActorStays(s, l, s.places[r].generation);
    }
  }

  lemma {:induction false} ForPeerFrom(trace: seq<State>, labels: seq<Label>, i: nat, j: nat, r: RequestId, p: Peer)
    requires Run(trace, labels) && i <= j < |trace| && ForPeer(trace[i], r, p)
    ensures ForPeer(trace[j], r, p)
  {
    hide Apply, Enabled, Inv, ForPeer;
    if i < j {
      ForPeerFrom(trace, labels, i, j - 1, r, p);
      RunKeepsInv(trace, labels, j - 1);
      assert Step(trace[j - 1], labels[j - 1], trace[j - 1 + 1]);
      StepKeepsForPeer(trace[j - 1], labels[j - 1], r, p);
    }
  }

  /** A lease invalidated is a generation announced as over. */
  lemma InvalidatedIsAnnounced(trace: seq<State>, labels: seq<Label>, r: RequestId, g: Generation, p: Peer, at: nat)
    requires Run(trace, labels) && PlaysInvalidate(trace, labels, r, g, at)
    requires g in trace[at].actors && trace[at].actors[g].id == p
    ensures g in trace[at + 1].actors && trace[at + 1].actors[g].id == p && Announced(trace[at + 1], p, g)
  {
    hide Apply, Inv, Announced;
    RunKeepsInv(trace, labels, at);
    assert Step(trace[at], labels[at], trace[at + 1]);
    ActorStays(trace[at], labels[at], g);
    if trace[at].running {
      RefusedIsAnnounced(trace[at], labels[at], g);
    } else {
      AnnouncedWhenStopped(trace[at], p, g);
      AnnouncedStays(trace[at], labels[at], p, g);
    }
  }

  lemma AnnouncedWhenStopped(s: State, p: Peer, g: Generation)
    requires !s.running
    ensures Announced(s, p, g)
  {
  }

  /** A request sent after the announcement is granted only newer generations. */
  lemma GrantAfterAnnounced(trace: seq<State>, labels: seq<Label>, i: nat, p: Peer, g: Generation, reply: Reply,
                            x: Exchange)
    requires Run(trace, labels) && i <= x.sent && reply.Granted? && PlaysReply(trace, labels, p, reply, x)
    requires g in trace[i].actors && trace[i].actors[g].id == p && Announced(trace[i], p, g)
    ensures reply.generation > g
  {
    hide Apply, Enabled, Inv, Announced, Grants;
    AnnouncedFrom(trace, labels, i, x.sent, p, g);
    SentStaysFresh(trace, labels, x.sent, x.settled, labels[x.sent].r, p, g);
    RunKeepsInv(trace, labels, x.settled);
    MailedAtGrant(trace[x.settled], labels[x.settled], labels[x.sent].r, reply.generation);
  }

  /** End to end: when `open_stream` loses its first lease and gets a second one, the second is of a newer
      generation than the one it has invalidated, whatever else runs. */
  lemma SecondLeaseIsNewer(trace: seq<State>, labels: seq<Label>, p: Peer, first: Round, second: Round,
                           xs: seq<Exchange>, ys: seq<Exchange>, at: nat, g: Generation, h: Generation)
    requires Run(trace, labels)
    requires PlaysRound(trace, labels, p, first, xs, 0, at) && Outcome(first) == Ok(g) && !first.opens
    requires PlaysInvalidate(trace, labels, labels[xs[|xs| - 1].sent].r, g, at)
    requires PlaysRound(trace, labels, p, second, ys, at + 1, |labels|) && Outcome(second) == Ok(h)
    ensures h > g
  {
    hide PlaysInvalidate, Grants, Answers, Inv, Apply, Enabled, Announced;
    var x, y := xs[|xs| - 1], ys[|ys| - 1];
    var granted, again := first.replies[|xs| - 1], second.replies[|ys| - 1];
    assert granted == Granted(g) && again == Granted(h);
    assert PlaysReply(trace, labels, p, granted, x) && PlaysReply(trace, labels, p, again, y);
    GrantIsForPeer(trace, labels, p, granted, x);
    ActorFrom(trace, labels, x.settled, at, g);
    InvalidatedIsAnnounced(trace, labels, labels[x.sent].r, g, p, at);
    GrantAfterAnnounced(trace, labels, at + 1, p, g, again, y);
  }

  lemma {:induction false} ActorFrom(trace: seq<State>, labels: seq<Label>, i: nat, j: nat, g: Generation)
    requires Run(trace, labels) && i <= j < |trace| && g in trace[i].actors
    ensures g in trace[j].actors && trace[j].actors[g].id == trace[i].actors[g].id
  {
    hide Apply, Enabled, Inv;
    if i < j {
      ActorFrom(trace, labels, i, j - 1, g);
      RunKeepsInv(trace, labels, j - 1);
      assert Step(trace[j - 1], labels[j - 1], trace[j - 1 + 1]);
      ActorStays(trace[j - 1], labels[j - 1], g);
    }
  }
}
