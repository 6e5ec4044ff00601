// What the pool promises over whole runs, whatever the interleaving.

module PoolTheorems {
  import opened PoolTable
  import opened PoolProtocol
  import opened PoolInvariant
  import opened PoolSteps

  // ---------------------------------------------------------------------------
  // The life of a request
  // ---------------------------------------------------------------------------

  /** A place and the next one. What an actor makes of a request depends on its connection: a lease while
      both sides have it open, the very error of a failed connect, or held back to be refused as closed. */
  predicate Follows(actors: map<Generation, Actor>, from: Place, to: Place) {
    || from == to
    || match from
       case Queued =>
         to.Forwarding? || to.Mailed? || to == Answered(Refusal(Busy))
             || to == Answered(Refusal(TooManyConnections)) || to.Dropped?
       case Forwarding(g) => to == Mailed(g) || to.Dropped?
       case Mailed(g) =>
         || to.Dropped?
         || (g in actors
             && match actors[g].link
                case Up => to == if actors[g].remoteClosed then Held(g) else Answered(Lease(g))
                case Failed(error) => to == Answered(Refusal(error))
                case Pending => false)
       case Held(g) => to == Answered(Refusal(ClosedBeforeReuse))
       case Answered(_) => false
       case Dropped => false
  }

  /** A request only moves forward: queue, hand-over, one mailbox, answer; and an answer is final. */
  lemma RequestLifecycle(trace: seq<State>, labels: seq<Label>, i: nat, r: RequestId)
    requires Run(trace, labels) && i < |labels| && r in trace[i].places
    ensures r in trace[i + 1].places && Follows(trace[i].actors, trace[i].places[r], trace[i + 1].places[r])
  {
    hide Apply, Enabled, Inv, Follows;
    RunKeepsInv(trace, labels, i);
    assert Step(trace[i], labels[i], trace[i + 1]);
    StepFollows(trace[i], labels[i], r);
  }

  lemma StepFollows(s: State, l: Label, r: RequestId)
    requires Inv(s) && Enabled(s, l) && r in s.places
    ensures r in Apply(s, l).places && Follows(s.actors, s.places[r], Apply(s, l).places[r])
    ensures s.places[r].Queued? && Apply(s, l).places[r] != Queued ==> l.Handle? || l.PoolDrop?
  {
    if Local(l) {
      LocalLifecycle(s, l, r);
    } else if l.Handle? {
      var e := HandleIsHandled(s);
      HandleFrame(s.table, s.limit, s.queue[0], SlotOutcome(s, s.queue[0].id));
      HandledLifecycle(s, ApplyHandle(s), e, r);
    } else if l.Forward? {
      ForwardLifecycle(s, r);
    } else if l.PoolDrop? {
      assert r in QueuedRequests(s.queue) ==> At(s, r, Queued);
    }
  }

  lemma HandledLifecycle(s: State, s': State, e: Effect, r: RequestId)
    requires PlacesOk(s) && Handled(s, s', e) && r in s.places
    requires e.Replied? ==> e.error == Busy || e.error == TooManyConnections
    ensures r in s'.places && Follows(s.actors, s.places[r], s'.places[r])
  {
    QueuedAfterPop(s.queue);
    if !e.Nothing? {
      assert At(s, e.req, Queued);
    }
  }

  lemma ForwardLifecycle(s: State, r: RequestId)
    requires PlacesOk(s) && Enabled(s, Forward) && r in s.places
    ensures r in ApplyForward(s).places && Follows(s.actors, s.places[r], ApplyForward(s).places[r])
    ensures s.places[r].Queued? ==> ApplyForward(s).places[r] == Queued
  {
    assert At(s, s.forwarding.value.1, Forwarding(s.forwarding.value.0));
  }

  lemma LocalLifecycle(s: State, l: Label, r: RequestId)
    requires Local(l) && LocalEnabled(s, l) && ActorsOk(s) && PlacesOk(s) && r in s.places
    ensures r in ApplyLocal(s, l).places && Follows(s.actors, s.places[r], ApplyLocal(s, l).places[r])
    ensures s.places[r].Queued? ==> ApplyLocal(s, l).places[r].Queued?
  {
    var g := Target(s, l);
    var a := s.actors[g];
    assert ActorOk(a);
    if l.Receive? {
      assert At(s, a.mailbox[0], Mailed(g));
    } else if l.AnswerClosed? {
      assert At(s, a.phase.req, Held(g));
    } else if l.Stop? && r in a.mailbox {
      assert At(s, r, Mailed(g));
    }
  }

  // ---------------------------------------------------------------------------
  // Retries see a newer generation
  // ---------------------------------------------------------------------------

  /** The step tells a caller that generation `g` is over: a connect error, `Closed`, or the caller's
      own `invalidate`. */
  ghost predicate Refused(s: State, l: Label, g: Generation) {
    && Enabled(s, l) && g in s.actors
    && (|| l == AnswerClosed(g)
        || (l == Receive(g) && s.actors[g].link.Failed?)
        || (l.Invalidate? && s.leases[l.r] == g))
  }

  /** The step hands a lease of generation `g` to request `r`. */
  ghost predicate Grants(s: State, l: Label, r: RequestId, g: Generation) {
    Enabled(s, l) && l == Receive(g) && s.actors[g].mailbox[0] == r
        && ReceivedPlace(s.actors[g], g) == Answered(Lease(g))
  }

  lemma RefusedIsAnnounced(s: State, l: Label, g: Generation)
    requires Inv(s) && Refused(s, l, g)
    ensures Announced(Apply(s, l), s.actors[g].id, g)
  {
    hide ApplyLocal, ActorsOk, SlotsOk, CountsOk, PlacesOk, TrackedOk;
    if l.Invalidate? {
      assert Apply(s, l).queue[|s.queue|] == Shutdown(s.actors[g].id, g);
    } else {
      assert Announces(s.actors[g]);
      AnswersSendNothing(s, l);
    }
  }

  lemma AnswersSendNothing(s: State, l: Label)
    requires (l.Receive? || l.AnswerClosed?) && LocalEnabled(s, l)
    ensures var s' := ApplyLocal(s, l); s'.queue == s.queue && s'.table == s.table && s'.running == s.running
  {
    hide ActorNext;
  }

  /** Once the end of a generation is announced it stays announced: no step creates its slot again. */
  lemma AnnouncedStays(s: State, l: Label, p: Peer, g: Generation)
    requires Inv(s) && Enabled(s, l) && g in s.actors && Announced(s, p, g)
    ensures Announced(Apply(s, l), p, g)
  {
    if Local(l) {
      LocalFrames(s, l);
      if Shutdown(p, g) in s.queue {
        QueueKeeps(s.queue, Shutdown(p, g), Reported(s.actors[Target(s, l)], Target(s, l)));
      }
    } else if l.Handle? {
      var e := HandleIsHandled(s);
      AnnouncedAfterHandle(s, ApplyHandle(s), e, p, g);
    } else if l.SendRequest? && Shutdown(p, g) in s.queue {
      QueueKeeps(s.queue, Shutdown(p, g), Request(l.r, l.p));
    } else if l.Invalidate? && Shutdown(p, g) in s.queue {
      QueueKeeps(s.queue, Shutdown(p, g), Shutdown(s.actors[s.leases[l.r]].id, s.leases[l.r]));
    }
  }

  /** The actor of `g` is still there, with the same peer and at least the same history. */
  ghost predicate SameActor(s: State, s': State, g: Generation) {
    && g in s.actors && g in s'.actors && s'.actors[g].id == s.actors[g].id
    && (s.actors[g].issued ==> s'.actors[g].issued)
  }

  lemma ActorStays(s: State, l: Label, g: Generation)
    requires Inv(s) && Enabled(s, l) && g in s.actors
    ensures SameActor(s, Apply(s, l), g)
  {
    if Local(l) {
      LocalActorStays(s, l, g);
    } else if l.Handle? {
      var e := HandleIsHandled(s);
      HandledActorStays(s, ApplyHandle(s), e, g);
    } else if l.Forward? {
      ForwardActorStays(s, g);
    }
  }

  lemma LocalActorStays(s: State, l: Label, g: Generation)
    requires ActorsOk(s) && Local(l) && LocalEnabled(s, l) && g in s.actors
    ensures SameActor(s, ApplyLocal(s, l), g)
  {
    LocalFrames(s, l);
    IssuedStays(s.actors[Target(s, l)], l, s.closed);
  }

  lemma ForwardActorStays(s: State, g: Generation)
    requires Enabled(s, Forward) && g in s.actors
    ensures SameActor(s, ApplyForward(s), g)
  {
  }

  lemma HandledActorStays(s: State, s': State, e: Effect, g: Generation)
    requires Handled(s, s', e) && g in s.actors
    ensures SameActor(s, s', g)
  {
  }

  lemma IssuedStays(a: Actor, l: Label, closed: bool)
    requires Local(l) && ActorEnabled(a, l, closed)
    ensures a.issued ==> ActorNext(a, l, closed).issued
  {
  }

  /** The queued request at `i` cannot reach generation `g`: its slot is gone, or goes first. */
  predicate Cleared(s: State, p: Peer, g: Generation, i: nat)
    requires i <= |s.queue|
  {
    !Matches(s.table, p, g) || Shutdown(p, g) in s.queue[..i]
  }

  /** Request `r` for `p` is out of reach of generation `g` and of all older ones. */
  ghost predicate Fresh(s: State, r: RequestId, p: Peer, g: Generation) {
    && r in s.places
    && match s.places[r]
       case Queued =>
         forall i :: 0 <= i < |s.queue| && s.queue[i].Request? && s.queue[i].req == r ==>
                     s.queue[i].id == p && Cleared(s, p, g, i)
       case Forwarding(h) => h > g
       case Mailed(h) => h > g
       case Held(h) => h > g
       case Answered(answer) => answer.Lease? ==> answer.generation > g
       case Dropped => true
  }

  lemma SentIsFresh(s: State, r: RequestId, p: Peer, g: Generation)
    requires Inv(s) && Enabled(s, SendRequest(r, p)) && Announced(s, p, g)
    ensures Fresh(Apply(s, SendRequest(r, p)), r, p, g)
  {
    var s' := Apply(s, SendRequest(r, p));
    assert s'.queue[..|s.queue|] == s.queue;
    assert !At(s, r, Queued);
    forall i | 0 <= i < |s.queue| && s.queue[i].Request? ensures s.queue[i].req in QueuedRequests(s.queue) {
    }
  }

  lemma FreshStays(s: State, l: Label, r: RequestId, p: Peer, g: Generation)
    requires Inv(s) && Enabled(s, l) && g in s.actors && s.actors[g].id == p && Fresh(s, r, p, g)
    ensures Fresh(Apply(s, l), r, p, g)
  {
    hide ApplyLocal, ApplyHandle, ApplyForward, LocalEnabled, ActorsOk, SlotsOk, CountsOk, AnnouncedOk, PlacesOk,
        TrackedOk;
    StepFollows(s, l, r);
    if s.places[r].Queued? {
      if l.Handle? {
        FreshStaysHandle(s, r, p, g);
      } else if !l.PoolDrop? {
        QueueGrows(s, l);
        FreshInQueue(s, Apply(s, l), r, p, g);
      }
    }
  }

  /** Other than by the pool actor, the queue only grows, at its end, and slots only go. */
  ghost predicate Grows(s: State, s': State) {
    && s.queue <= s'.queue
    && (forall i :: |s.queue| <= i < |s'.queue| && s'.queue[i].Request? ==> s'.queue[i].req !in s.places)
    && (forall p, g :: Matches(s'.table, p, g) ==> Matches(s.table, p, g))
    && s'.table.next == s.table.next
  }

  lemma QueueGrows(s: State, l: Label)
    requires Inv(s) && Enabled(s, l) && !l.Handle? && !l.PoolDrop?
    ensures Grows(s, Apply(s, l))
  {
    if Local(l) {
      LocalFrames(s, l);
      assert s.queue <= ApplyLocal(s, l).queue;
    } else if l.Forward? {
      ForwardGrows(s);
    }
  }

  lemma ForwardGrows(s: State)
    requires Enabled(s, Forward)
    ensures Grows(s, ApplyForward(s))
  {
  }

  /** The queue only grows at its end and the slot of `g` is not created. */
  lemma FreshInQueue(s: State, s': State, r: RequestId, p: Peer, g: Generation)
    requires Fresh(s, r, p, g) && s.places[r].Queued?
    requires s.queue <= s'.queue && (Matches(s'.table, p, g) ==> Matches(s.table, p, g))
    requires forall i :: |s.queue| <= i < |s'.queue| && s'.queue[i].Request? ==> s'.queue[i].req != r
    requires r in s'.places && s'.places[r].Queued?
    ensures Fresh(s', r, p, g)
  {
    forall i | 0 <= i < |s'.queue| && s'.queue[i].Request? && s'.queue[i].req == r
      ensures s'.queue[i].id == p && Cleared(s', p, g, i)
    {
      assert s.queue[i] == s'.queue[i] && s'.queue[..i] == s.queue[..i];
    }
  }

  lemma FreshStaysHandle(s: State, r: RequestId, p: Peer, g: Generation)
    requires Inv(s) && Enabled(s, Handle) && g in s.actors && s.actors[g].id == p
    requires Fresh(s, r, p, g) && s.places[r].Queued? && r in ApplyHandle(s).places
    ensures Fresh(ApplyHandle(s), r, p, g)
  {
    var s' := ApplyHandle(s);
    var e := HandleIsHandled(s);
    if !e.Nothing? && e.req == r {
      HandledNextFresh(s, s', e, p, g);
    } else {
      HandledFresh(s, s', e, r, p, g);
    }
  }

  lemma HandledNextFresh(s: State, s': State, e: Effect, p: Peer, g: Generation)
    requires SlotsOk(s) && Handled(s, s', e) && g in s.actors && s.actors[g].id == p && !e.Nothing?
    requires e.Spawned? ==> e.generation == s.table.next
    requires e.Forwarded? ==> Matches(s.table, s.queue[0].id, e.generation)
    requires Fresh(s, e.req, p, g) && s.places[e.req].Queued?
    ensures Fresh(s', e.req, p, g)
  {
    assert s.queue[0].id == p && Cleared(s, p, g, 0);
    assert s.queue[..0] == [];
  }

  lemma HandledFresh(s: State, s': State, e: Effect, r: RequestId, p: Peer, g: Generation)
    requires Fresh(s, r, p, g) && s.places[r].Queued? && g < s.table.next
    requires SlotsHandled(s, s', e) && s.queue != [] && s'.queue == s.queue[1..]
    requires s.queue[0].Shutdown? ==> s'.table == RemoveIfMatch(s.table, s.queue[0].id, s.queue[0].generation)
    requires e.Spawned? ==> Matches(s'.table, e.id, e.generation)
    requires r in s'.places && s'.places[r].Queued?
    ensures Fresh(s', r, p, g)
  {
    assert Matches(s'.table, p, g) ==> Matches(s.table, p, g);
    forall i | 0 <= i < |s'.queue| && s'.queue[i].Request? && s'.queue[i].req == r
      ensures s'.queue[i].id == p && Cleared(s', p, g, i)
    {
      assert s.queue[i + 1] == s'.queue[i];
      assert s.queue[i + 1].id == p && Cleared(s, p, g, i + 1);
      if Matches(s'.table, p, g) {
        var k :| 0 <= k < i + 1 && s.queue[..i + 1][k] == Shutdown(p, g);
        assert k > 0;
        assert s'.queue[..i][k - 1] == Shutdown(p, g);
      }
    }
  }

  lemma {:induction false} AnnouncedFrom(trace: seq<State>, labels: seq<Label>, i: nat, j: nat, p: Peer, g: Generation)
    requires Run(trace, labels) && i <= j < |trace|
    requires g in trace[i].actors && trace[i].actors[g].id == p && Announced(trace[i], p, g)
    ensures g in trace[j].actors && trace[j].actors[g].id == p && Announced(trace[j], p, g)
  {
    hide Apply, Enabled, Inv, Announced;
    if i < j {
      AnnouncedFrom(trace, labels, i, j - 1, p, g);
      RunKeepsInv(trace, labels, j - 1);
      assert Step(trace[j - 1], labels[j - 1], trace[j - 1 + 1]);
      AnnouncedStays(trace[j - 1], labels[j - 1], p, g);
      ActorStays(trace[j - 1], labels[j - 1], g);
    }
  }

  lemma {:induction false} FreshFrom(trace: seq<State>, labels: seq<Label>, i: nat, j: nat, r: RequestId, p: Peer,
                                     g: Generation)
    requires Run(trace, labels) && i <= j < |trace|
    requires g in trace[i].actors && trace[i].actors[g].id == p && Fresh(trace[i], r, p, g)
    ensures g in trace[j].actors && trace[j].actors[g].id == p && Fresh(trace[j], r, p, g)
  {
    hide Apply, Enabled, Inv, Fresh;
    if i < j {
      FreshFrom(trace, labels, i, j - 1, r, p, g);
      RunKeepsInv(trace, labels, j - 1);
      assert Step(trace[j - 1], labels[j - 1], trace[j - 1 + 1]);
      FreshStays(trace[j - 1], labels[j - 1], r, p, g);
      ActorStays(trace[j - 1], labels[j - 1], g);
    }
  }

  lemma RefusalHolds(trace: seq<State>, labels: seq<Label>, i: nat, j: nat, g: Generation)
    requires Run(trace, labels) && i < j < |labels| && Refused(trace[i], labels[i], g)
    ensures g in trace[j].actors && trace[j].actors[g].id == trace[i].actors[g].id
    ensures Announced(trace[j], trace[i].actors[g].id, g)
  {
    hide Apply, Enabled, Inv, Announced;
    RunKeepsInv(trace, labels, i);
    assert Step(trace[i], labels[i], trace[i + 1]);
    RefusedIsAnnounced(trace[i], labels[i], g);
    ActorStays(trace[i], labels[i], g);
    AnnouncedFrom(trace, labels, i + 1, j, trace[i].actors[g].id, g);
  }

  lemma SentStaysFresh(trace: seq<State>, labels: seq<Label>, j: nat, k: nat, r: RequestId, p: Peer, g: Generation)
    requires Run(trace, labels) && j < k < |labels| && labels[j] == SendRequest(r, p)
    requires g in trace[j].actors && trace[j].actors[g].id == p && Announced(trace[j], p, g)
    ensures Fresh(trace[k], r, p, g)
  {
    hide Apply, Enabled, Inv, Announced, Fresh;
    RunKeepsInv(trace, labels, j);
    assert Step(trace[j], labels[j], trace[j + 1]);
    SentIsFresh(trace[j], r, p, g);
    ActorStays(trace[j], labels[j], g);
    FreshFrom(trace, labels, j + 1, k, r, p, g);
  }

  lemma MailedAtGrant(s: State, l: Label, r: RequestId, g: Generation)
    requires Inv(s) && Grants(s, l, r, g)
    ensures g in s.actors && r in s.places && s.places[r] == Mailed(g)
  {
    assert At(s, r, Mailed(g));
  }

  /** Retry freshness: after generation `g` refused a caller (or was invalidated), any lease obtained by
      a request for the same peer that was sent later has a strictly newer generation. */
  lemma RetryFreshness(trace: seq<State>, labels: seq<Label>, i: nat, j: nat, k: nat, g: Generation, h: Generation)
    requires Run(trace, labels) && i < j < k < |labels|
    requires Refused(trace[i], labels[i], g)
    requires labels[j].SendRequest? && labels[j].p == trace[i].actors[g].id
    requires Grants(trace[k], labels[k], labels[j].r, h)
    ensures h > g
  {
    hide Apply, Inv, Refused, Grants, Announced;
    RefusalHolds(trace, labels, i, j, g);
    SentStaysFresh(trace, labels, j, k, labels[j].r, labels[j].p, g);
    RunKeepsInv(trace, labels, k);
    MailedAtGrant(trace[k], labels[k], labels[j].r, h);
  }

  // ---------------------------------------------------------------------------
  // Generations only grow
  // ---------------------------------------------------------------------------

  /** No slot of `p` has generation `g`, and none ever will again. */
  ghost predicate Superseded(s: State, p: Peer, g: Generation) {
    g < s.table.next && !Matches(s.table, p, g)
  }

  lemma SupersededStays(s: State, l: Label, p: Peer, g: Generation)
    requires Inv(s) && Enabled(s, l) && Superseded(s, p, g)
    ensures Superseded(Apply(s, l), p, g)
  {
    if l.Handle? {
      var e := HandleIsHandled(s);
      assert Matches(ApplyHandle(s).table, p, g) ==> Matches(s.table, p, g);
    } else if !l.PoolDrop? {
      QueueGrows(s, l);
    }
  }

  lemma {:induction false} SupersededFrom(trace: seq<State>, labels: seq<Label>, i: nat, j: nat, p: Peer, g: Generation)
    requires Run(trace, labels) && i <= j < |trace| && Superseded(trace[i], p, g)
    ensures Superseded(trace[j], p, g)
  {
    hide Apply, Enabled, Inv, Superseded;
    if i < j {
      SupersededFrom(trace, labels, i, j - 1, p, g);
      SupersededNext(trace, labels, j - 1, p, g);
    }
  }

  lemma SupersededNext(trace: seq<State>, labels: seq<Label>, i: nat, p: Peer, g: Generation)
    requires Run(trace, labels) && i < |labels| && Superseded(trace[i], p, g)
    ensures Superseded(trace[i + 1], p, g)
  {
    hide Apply, Enabled, Inv, Superseded;
    RunKeepsInv(trace, labels, i);
    assert Step(trace[i], labels[i], trace[i + 1]);
    SupersededStays(trace[i], labels[i], p, g);
  }

  /** The step spawns a connection actor of generation `g`. */
  ghost predicate Spawns(s: State, l: Label, g: Generation) {
    && Enabled(s, l) && l.Handle?
    && var e := HandleMsg(s.table, s.limit, s.queue[0], SlotOutcome(s, s.queue[0].id)).1;
       e.Spawned? && e.generation == g
  }

  lemma StepCounts(s: State, l: Label)
    requires Inv(s) && Enabled(s, l)
    ensures s.table.next <= Apply(s, l).table.next
    ensures forall g :: Spawns(s, l, g) ==> g == s.table.next < Apply(s, l).table.next
  {
    hide HandleMsg, ApplyLocal, ApplyForward, LocalEnabled, ActorsOk, CountsOk, AnnouncedOk, PlacesOk, TrackedOk, Grows;
    if l.Handle? {
      HandleFrame(s.table, s.limit, s.queue[0], SlotOutcome(s, s.queue[0].id));
    } else if !l.PoolDrop? {
      QueueGrows(s, l);
      assert Grows(s, Apply(s, l)) ==> Apply(s, l).table.next == s.table.next by { GrowsKeepsNext(s, Apply(s, l)); }
    }
  }

  lemma GrowsKeepsNext(s: State, s': State)
    ensures Grows(s, s') ==> s'.table.next == s.table.next
  {
  }

  lemma {:induction false} CounterGrows(trace: seq<State>, labels: seq<Label>, i: nat, j: nat)
    requires Run(trace, labels) && i <= j < |trace|
    ensures trace[i].table.next <= trace[j].table.next
  {
    hide Apply, Enabled, Inv, Spawns;
    if i < j {
      CounterGrows(trace, labels, i, j - 1);
      RunKeepsInv(trace, labels, j - 1);
      assert Step(trace[j - 1], labels[j - 1], trace[j - 1 + 1]);
      StepCounts(trace[j - 1], labels[j - 1]);
    }
  }

  /** No generation is issued twice: later actors have larger ones, whatever their peers. */
  lemma GenerationsNeverRepeat(trace: seq<State>, labels: seq<Label>, i: nat, j: nat, g: Generation, h: Generation)
    requires Run(trace, labels) && i < j < |labels|
    requires Spawns(trace[i], labels[i], g) && Spawns(trace[j], labels[j], h)
    ensures g < h
  {
    hide Apply, Enabled, Inv, Spawns;
    RunKeepsInv(trace, labels, i);
    RunKeepsInv(trace, labels, j);
    assert Step(trace[i], labels[i], trace[i + 1]);
    assert Step(trace[j], labels[j], trace[j + 1]);
    StepCounts(trace[i], labels[i]);
    StepCounts(trace[j], labels[j]);
    CounterGrows(trace, labels, i + 1, j);
  }

  /** From the moment a generation has lost its slot, no late message about it changes the table or the
      idle list, for the rest of the run. */
  lemma LateMessagesAreHarmless(trace: seq<State>, labels: seq<Label>, i: nat, j: nat, m: Msg)
    requires Run(trace, labels) && i <= j < |labels| && labels[j] == Handle
    requires trace[j].queue != [] && trace[j].queue[0] == m && !m.Request?
    requires Superseded(trace[i], m.id, m.generation)
    ensures trace[j + 1].table == trace[j].table
  {
    SupersededFrom(trace, labels, i, j, m.id, m.generation);
    assert Step(trace[j], labels[j], trace[j + 1]);
    StaleMessageIsIgnored(trace[j].table, trace[j].limit, m, SlotOutcome(trace[j], m.id));
  }

  // ---------------------------------------------------------------------------
  // Slots
  // ---------------------------------------------------------------------------

  /** No dead slots: at most `limit` slots, each with a running actor of its peer, unless its removal is
      already in the pool queue or the pool is shutting down. */
  lemma NoDeadSlots(trace: seq<State>, labels: seq<Label>, i: nat, p: Peer)
    requires Run(trace, labels) && i < |trace| && p in trace[i].table.connections
    ensures var s := trace[i]; var g := s.table.connections[p];
            && |s.table.connections| <= s.limit
            && g in s.actors && s.actors[g].id == p
            && (!s.actors[g].phase.Stopped? || Shutdown(p, g) in s.queue || s.closed)
  {
    RunKeepsInv(trace, labels, i);
    var g := trace[i].table.connections[p];
    assert !Announces(trace[i].actors[g]) || Announced(trace[i], p, g);
  }

  /** No step of an actor, a mailbox, a notification or the pool actor can be taken: only callers,
      the network and the clock can move. */
  ghost predicate Quiescent(s: State) {
    && s.running && !s.closed
    && !Enabled(s, Handle) && !Enabled(s, Forward)
    && (forall g :: g in s.actors ==> ActorResting(s, g))
  }

  ghost predicate ActorResting(s: State, g: Generation) {
    && !Enabled(s, NotifyOne(g)) && !Enabled(s, Enter(g)) && !Enabled(s, Report(g)) && !Enabled(s, SeeShutdown(g))
         && !Enabled(s, SeeClosed(g))
    && !Enabled(s, Receive(g)) && !Enabled(s, Wake(g)) && !Enabled(s, AnswerClosed(g)) && !Enabled(s, Stop(g))
  }

  lemma RestingActorWaits(s: State, g: Generation)
    requires ActorsOk(s) && s.running && s.queue == [] && g in s.actors && ActorResting(s, g)
    ensures var a := s.actors[g];
            && (a.phase.Connecting? || a.phase.Select? || a.phase.Stopped?)
            && a.notifying == 0
            && (a.phase.Select? ==> a.mailbox == [] && (a.link.Up? ==> !a.permit))
  {
    assert ActorOk(s.actors[g]);
    assert LocalEnabled(s, NotifyOne(g)) <==> s.actors[g].notifying > 0;
    assert LocalEnabled(s, Enter(g)) <==> s.actors[g].phase.Entering?;
    assert LocalEnabled(s, Report(g)) <==> Reporting(s.actors[g].phase);
    assert LocalEnabled(s, AnswerClosed(g)) <==> s.actors[g].phase.AnswerStale?;
    assert LocalEnabled(s, Stop(g)) <==> s.actors[g].phase.Breaking?;
    assert LocalEnabled(s, Receive(g)) <==> s.actors[g].phase.Select? && s.actors[g].mailbox != [];
    assert LocalEnabled(s, Wake(g)) <==> s.actors[g].phase.Select? && s.actors[g].link.Up? && s.actors[g].permit;
  }

  /** The slot of `p` is still connecting, has a lease outstanding, or is on the idle list. */
  ghost predicate SlotInUseOrIdle(s: State, p: Peer)
    requires p in s.table.connections
  {
    var g := s.table.connections[p];
    g in s.actors && (s.actors[g].phase.Connecting? || Leased(s, g) || (p, g) in s.table.idle)
  }

  /** Idle list completeness: in every reachable state at rest, each slot is in use or on the idle list. */
  lemma IdleListComplete(trace: seq<State>, labels: seq<Label>, i: nat, p: Peer)
    requires Run(trace, labels) && i < |trace| && Quiescent(trace[i]) && p in trace[i].table.connections
    ensures SlotInUseOrIdle(trace[i], p)
  {
    RunKeepsInv(trace, labels, i);
    RestingSlot(trace[i], p);
  }

  lemma RestingSlot(s: State, p: Peer)
    requires Inv(s) && Quiescent(s) && p in s.table.connections
    ensures SlotInUseOrIdle(s, p)
  {
    var g := s.table.connections[p];
    AtRestNothingQueued(s);
    RestingActorWaits(s, g);
    SlotNotOver(s, p);
    assert Tracked(s, p, g);
    if s.actors[g].count > 0 {
      CountedIsLeased(s, g);
    }
  }

  ghost predicate Leased(s: State, g: Generation) {
    exists r :: r in s.leases && s.leases[r] == g
  }

  lemma CountedIsLeased(s: State, g: Generation)
    requires CountsOk(s) && g in s.actors && s.actors[g].count > 0
    ensures Leased(s, g)
  {
    var r :| r in LeasesOf(s.leases, g);
  }

  lemma AtRestNothingQueued(s: State)
    requires s.forwarding.Some? ==> s.forwarding.value.0 in s.actors
    requires s.running && !Enabled(s, Handle) && !Enabled(s, Forward)
    ensures s.queue == [] && s.forwarding.None?
  {
    assert Enabled(s, Handle) <==> s.running && s.forwarding.None? && s.queue != [];
  }

  lemma SlotNotOver(s: State, p: Peer)
    requires SlotsOk(s) && AnnouncedOk(s) && ActorsOk(s) && s.running && !s.closed && s.queue == []
    requires p in s.table.connections
    ensures var a := s.actors[s.table.connections[p]];
            !a.phase.Stopped? && (a.phase.Select? ==> a.link.Up?)
  {
    var g := s.table.connections[p];
    assert ActorOk(s.actors[g]);
    assert Announces(s.actors[g]) ==> Announced(s, p, g);
    assert Draining(s.actors[g]) ==> s.closed;
  }

  /** So a request turned away in such a state found a full table and nothing to evict: every slot was
      still connecting or had a lease outstanding. */
  lemma RefusedOnlyWhenNothingEvictable(trace: seq<State>, labels: seq<Label>, i: nat, r: RequestId, id: Peer, p: Peer)
    requires Run(trace, labels) && i < |trace| && Quiescent(trace[i]) && p in trace[i].table.connections
    requires var s := trace[i];
             HandleMsg(s.table, s.limit, Request(r, id), SlotOutcome(s, id)).1 == Replied(r, TooManyConnections)
    ensures var s := trace[i]; var g := s.table.connections[p];
            && |s.table.connections| == s.limit
            && g in s.actors && (s.actors[g].phase.Connecting? || Leased(s, g))
  {
    RunKeepsInv(trace, labels, i);
    var s := trace[i];
    RefusedMeansFullAndNothingIdle(s.table, s.limit, r, id, SlotOutcome(s, id));
    RestingSlot(s, p);
  }

  // ---------------------------------------------------------------------------
  // Leases
  // ---------------------------------------------------------------------------

  /** The counter of every generation is the number of its outstanding leases, and an armed idle timer
      or an announced idleness means there is none. */
  lemma CounterCountsLeases(trace: seq<State>, labels: seq<Label>, i: nat, g: Generation)
    requires Run(trace, labels) && i < |trace| && g in trace[i].actors
    ensures var a := trace[i].actors[g];
            && a.count == |LeasesOf(trace[i].leases, g)|
            && (a.idleActive || a.phase.ReportIdle? || a.phase.ReportExpired? ==> LeasesOf(trace[i].leases, g) == {})
  {
    RunKeepsInv(trace, labels, i);
    assert ActorOk(trace[i].actors[g]);
  }

  /** Lease safety: a connection is closed by its actor only with no lease outstanding, unless the
      remote side closed it first. */
  lemma CloseOnlyWhenUnleased(trace: seq<State>, labels: seq<Label>, i: nat, g: Generation)
    requires Run(trace, labels) && i < |labels| && labels[i] == Stop(g)
    requires Enabled(trace[i], Stop(g)) && trace[i].actors[g].link.Up?
    ensures trace[i].actors[g].remoteClosed || LeasesOf(trace[i].leases, g) == {}
    ensures trace[i].actors[g].phase.cause == Drained ==> trace[i].closed
  {
    RunKeepsInv(trace, labels, i);
    assert Step(trace[i], labels[i], trace[i + 1]);
    assert ActorOk(trace[i].actors[g]);
    assert Draining(trace[i].actors[g]) ==> trace[i].closed;
  }

  lemma {:induction false} IssuedFrom(trace: seq<State>, labels: seq<Label>, i: nat, j: nat, g: Generation)
    requires Run(trace, labels) && i <= j < |trace| && g in trace[i].actors && trace[i].actors[g].issued
    ensures g in trace[j].actors && trace[j].actors[g].issued
  {
    hide Apply, Enabled, Inv;
    if i < j {
      IssuedFrom(trace, labels, i, j - 1, g);
      RunKeepsInv(trace, labels, j - 1);
      assert Step(trace[j - 1], labels[j - 1], trace[j - 1 + 1]);
      ActorStays(trace[j - 1], labels[j - 1], g);
    }
  }

  /** No lost wakeup: an actor back at its select that has once granted a lease and has none outstanding
      has a stored notification, a drop about to store one, or its idle timer armed. */
  lemma NoLostWakeup(trace: seq<State>, labels: seq<Label>, k: nat, i: nat, r: RequestId, g: Generation)
    requires Run(trace, labels) && k < i < |trace| && k < |labels| && Grants(trace[k], labels[k], r, g)
    requires g in trace[i].actors && trace[i].actors[g].phase.Select?
    requires LeasesOf(trace[i].leases, g) == {}
    ensures WakeupDue(trace[i].actors[g])
  {
    assert Step(trace[k], labels[k], trace[k + 1]);
    IssuedFrom(trace, labels, k + 1, i, g);
    RunKeepsInv(trace, labels, i);
    assert ActorOk(trace[i].actors[g]);
  }

  // ---------------------------------------------------------------------------
  // Requests
  // ---------------------------------------------------------------------------

  /** Every request ever sent is in exactly one place. */
  lemma RequestConservation(trace: seq<State>, labels: seq<Label>, i: nat, r: RequestId)
    requires Run(trace, labels) && i < |trace| && r in trace[i].places
    ensures At(trace[i], r, trace[i].places[r])
    ensures forall place :: At(trace[i], r, place) ==> place == trace[i].places[r]
  {
    RunKeepsInv(trace, labels, i);
  }

  /** The step sends an answer on the reply channel of request `r`. */
  ghost predicate Answers(s: State, l: Label, r: RequestId) {
    && Enabled(s, l)
    && (|| (l.Receive? && s.actors[l.g].mailbox[0] == r && ReceivedPlace(s.actors[l.g], l.g).Answered?)
        || (l.AnswerClosed? && s.actors[l.g].phase.req == r)
        || (l.Handle? && s.queue[0].Request? && s.queue[0].req == r
            && HandleMsg(s.table, s.limit, s.queue[0], SlotOutcome(s, s.queue[0].id)).1.Replied?))
  }

  lemma AnsweringTakesFromPlace(s: State, l: Label, r: RequestId)
    requires Inv(s) && Answers(s, l, r)
    ensures r in s.places && !s.places[r].Answered?
    ensures r in Apply(s, l).places && Apply(s, l).places[r].Answered?
  {
    hide HandleMsg, ApplyLocal, ActorsOk, CountsOk, AnnouncedOk, TrackedOk;
    if l.Receive? || l.AnswerClosed? {
      ActorAnswers(s, l, r);
    } else {
      assert r in QueuedRequests(s.queue);
      assert At(s, r, Queued);
      var e := HandleIsHandled(s);
    }
  }

  lemma ActorAnswers(s: State, l: Label, r: RequestId)
    requires PlacesOk(s) && Answers(s, l, r) && (l.Receive? || l.AnswerClosed?)
    ensures r in s.places && !s.places[r].Answered?
    ensures r in ApplyLocal(s, l).places && ApplyLocal(s, l).places[r].Answered?
  {
    hide ActorNext;
    if l.Receive? {
      assert At(s, r, Mailed(l.g));
    } else {
      assert At(s, r, Held(l.g));
    }
  }

  lemma {:induction false} AnswerStands(trace: seq<State>, labels: seq<Label>, i: nat, j: nat, r: RequestId)
    requires Run(trace, labels) && i <= j < |trace| && r in trace[i].places && trace[i].places[r].Answered?
    ensures r in trace[j].places && trace[j].places[r] == trace[i].places[r]
  {
    hide Apply, Enabled, Inv;
    if i < j {
      AnswerStands(trace, labels, i, j - 1, r);
      RunKeepsInv(trace, labels, j - 1);
      assert Step(trace[j - 1], labels[j - 1], trace[j - 1 + 1]);
      StepFollows(trace[j - 1], labels[j - 1], r);
    }
  }

  /** No request is answered twice. */
  lemma AnsweredAtMostOnce(trace: seq<State>, labels: seq<Label>, i: nat, j: nat, r: RequestId)
    requires Run(trace, labels) && i < j < |labels|
    requires Answers(trace[i], labels[i], r)
    ensures !Answers(trace[j], labels[j], r)
  {
    hide Apply, Enabled, Inv, Answers;
    RunKeepsInv(trace, labels, i);
    assert Step(trace[i], labels[i], trace[i + 1]);
    AnsweringTakesFromPlace(trace[i], labels[i], r);
    AnswerStands(trace, labels, i + 1, j, r);
    RunKeepsInv(trace, labels, j);
    if Answers(trace[j], labels[j], r) {
      AnsweringTakesFromPlace(trace[j], labels[j], r);
    }
  }

  /** The step loses request `r`: it stops the actor whose mailbox holds it, hands it over to an actor
      that has already stopped, or drops the queue of the stopped pool. */
  predicate Loses(s: State, l: Label, r: RequestId)
    requires Enabled(s, l)
  {
    || (l.Stop? && r in s.actors[l.g].mailbox)
    || (l.Forward? && s.forwarding.value.1 == r && s.actors[s.forwarding.value.0].phase.Stopped?)
    || (l.PoolDrop? && r in QueuedRequests(s.queue))
  }

  /** A request is lost, its reply channel closed without an answer, in exactly these steps. */
  lemma DroppedExactlyWhen(trace: seq<State>, labels: seq<Label>, i: nat, r: RequestId)
    requires Run(trace, labels) && i < |labels| && r in trace[i].places && trace[i].places[r] != Dropped
    ensures Enabled(trace[i], labels[i]) && r in trace[i + 1].places
    ensures trace[i + 1].places[r] == Dropped <==> Loses(trace[i], labels[i], r)
  {
    hide Apply, Enabled, Inv, Loses;
    RunKeepsInv(trace, labels, i);
    assert Step(trace[i], labels[i], trace[i + 1]);
    StepDrops(trace[i], labels[i], r);
  }

  lemma StepDrops(s: State, l: Label, r: RequestId)
    requires Inv(s) && Enabled(s, l) && r in s.places && s.places[r] != Dropped
    ensures r in Apply(s, l).places
    ensures Apply(s, l).places[r] == Dropped <==> Loses(s, l, r)
  {
    hide HandleMsg, ActorNext, ActorsOk, SlotsOk, CountsOk, AnnouncedOk, PlacesOk, TrackedOk, Follows;
    StepFollows(s, l, r);
    if Local(l) {
      LocalDrops(s, l, r);
    } else if l.Handle? {
      HandleDrops(s, r);
    }
  }

  lemma HandleDrops(s: State, r: RequestId)
    requires SlotsOk(s) && Enabled(s, Handle) && r in s.places && s.places[r] != Dropped
    requires r in ApplyHandle(s).places
    ensures ApplyHandle(s).places[r] != Dropped
  {
    hide HandleMsg;
    var e := HandleIsHandled(s);
  }

  lemma LocalDrops(s: State, l: Label, r: RequestId)
    requires PlacesOk(s) && Local(l) && LocalEnabled(s, l) && r in s.places && s.places[r] != Dropped
    requires r in ApplyLocal(s, l).places
    ensures ApplyLocal(s, l).places[r] == Dropped <==> l.Stop? && r in s.actors[l.g].mailbox
  {
  }

  /** An actor, its connection and its timer can move whenever they have reason to. */
  ghost predicate ActorCanMove(s: State, g: Generation)
    requires g in s.actors
  {
    var a := s.actors[g];
    && (a.phase.Connecting? ==>
          && Enabled(s, ConnectUp(g))
          && Enabled(s, ConnectFailed(g, Timeout)) && Enabled(s, ConnectFailed(g, ConnectError)))
    && (a.phase.Entering? ==> Enabled(s, Enter(g)))
    && (a.phase.Select? ==>
          && (a.mailbox != [] ==> Enabled(s, Receive(g)))
          && (a.link.Up? && a.remoteClosed ==> Enabled(s, SeeClosed(g)))
          && (a.link.Up? && a.permit ==> Enabled(s, Wake(g)))
          && (a.idleActive ==> Enabled(s, Expire(g)))
          && (s.closed && g in s.woken && !a.shutdownPending ==> Enabled(s, SeeShutdown(g))))
    && (Reporting(a.phase) && (!s.running || |s.queue| < 256) ==> Enabled(s, Report(g)))
    && (a.phase.AnswerStale? ==> Enabled(s, AnswerClosed(g)))
    && (a.phase.Breaking? ==> Enabled(s, Stop(g)))
    && (a.notifying > 0 ==> Enabled(s, NotifyOne(g)))
    && (a.link.Up? ==> Enabled(s, RemoteClose(g)))
  }

  /** Callers can send while there is room, and the pool actor can go on or stop. */
  ghost predicate PoolCanMove(s: State) {
    && (s.running && |s.queue| < 256 ==>
          && (forall r, p :: r !in s.places ==> Enabled(s, SendRequest(r, p)))
          && (forall r :: r in s.leases ==> Enabled(s, Invalidate(r))))
    && (s.running && s.forwarding.None? ==>
          (s.queue != [] ==> Enabled(s, Handle)) && (s.closed ==> Enabled(s, PoolStop)))
  }

  lemma LeasesNameActors(s: State)
    requires CountsOk(s)
    ensures forall r :: r in s.leases ==> s.leases[r] in s.actors
  {
  }

  lemma PoolAlwaysCanMove(s: State)
    requires forall r :: r in s.leases ==> s.leases[r] in s.actors
    ensures PoolCanMove(s)
  {
    hide LocalEnabled;
  }

  lemma ActorAlwaysCanMove(s: State, g: Generation)
    requires g in s.actors
    ensures ActorCanMove(s, g)
  {
  }

  lemma LeaseCanBeDropped(s: State, r: RequestId)
    requires CountsOk(s) && r in s.leases
    ensures Enabled(s, DropLease(r))
  {
    assert r in LeasesOf(s.leases, s.leases[r]);
    assert LocalEnabled(s, DropLease(r));
  }

  lemma HandOversFindTheirActor(s: State)
    requires ActorsOk(s) && SlotsOk(s) && CountsOk(s)
    ensures forall r :: r in s.leases ==> Enabled(s, DropLease(r))
    ensures s.forwarding.Some? ==> Enabled(s, Forward)
    ensures forall p :: p in s.table.connections ==> s.table.connections[p] in s.actors
    ensures forall g :: g in s.actors && s.actors[g].phase.Select? ==> !s.actors[g].link.Pending?
  {
    hide CountsOk, LocalEnabled;
    forall r | r in s.leases ensures Enabled(s, DropLease(r)) {
      LeaseCanBeDropped(s, r);
    }
  }

  /** The conditions under which a step is modelled exclude nothing: a lease can always be dropped, a
      hand-over always finds its actor, and a forwarded request always finds its mailbox. */
  lemma StepsAreAlwaysPossible(trace: seq<State>, labels: seq<Label>, i: nat)
    requires Run(trace, labels) && i < |trace|
    ensures var s := trace[i];
            && (forall r :: r in s.leases ==> Enabled(s, DropLease(r)))
            && (s.forwarding.Some? ==> Enabled(s, Forward))
            && (forall p :: p in s.table.connections ==> s.table.connections[p] in s.actors)
            && (forall g :: g in s.actors && s.actors[g].phase.Select? ==> !s.actors[g].link.Pending?)
    ensures forall g :: g in trace[i].actors ==> ActorCanMove(trace[i], g)
    ensures PoolCanMove(trace[i])
  {
    hide ActorCanMove, PoolCanMove, Enabled, ActorsOk, CountsOk, SlotsOk;
    RunKeepsInv(trace, labels, i);
    var s := trace[i];
    forall g | g in s.actors ensures ActorCanMove(s, g) {
      ActorAlwaysCanMove(s, g);
    }
    LeasesNameActors(s);
    PoolAlwaysCanMove(s);
    HandOversFindTheirActor(s);
  }

  // ---------------------------------------------------------------------------
  // Evicted connections
  // ---------------------------------------------------------------------------

  /** Generation `g` has lost its slot, its first request is not still being handed over, and request `r`
      is not in its mailbox. */
  ghost predicate OutOfReach(s: State, g: Generation, r: RequestId) {
    && g in s.actors && Superseded(s, s.actors[g].id, g)
    && (s.forwarding.Some? ==> s.forwarding.value.0 != g)
    && (r in s.places ==> s.places[r] != Mailed(g))
  }

  /** A connection that has lost its slot only drains: for the rest of the run no request enters its mailbox. */
  lemma {:induction false} EvictedOnlyDrains(trace: seq<State>, labels: seq<Label>, i: nat, j: nat, g: Generation,
      r: RequestId)
    requires Run(trace, labels) && i <= j < |trace| && OutOfReach(trace[i], g, r)
    ensures OutOfReach(trace[j], g, r)
  {
    hide Apply, Enabled, Inv, OutOfReach;
    if i < j {
      EvictedOnlyDrains(trace, labels, i, j - 1, g, r);
      RunKeepsInv(trace, labels, j - 1);
      assert Step(trace[j - 1], labels[j - 1], trace[j - 1 + 1]);
      StaysOutOfReach(trace[j - 1], labels[j - 1], g, r);
    }
  }

  lemma StaysOutOfReach(s: State, l: Label, g: Generation, r: RequestId)
    requires Inv(s) && Enabled(s, l) && OutOfReach(s, g, r)
    ensures OutOfReach(Apply(s, l), g, r)
  {
    hide HandleMsg, ActorNext, Superseded;
    SupersededStays(s, l, s.actors[g].id, g);
    ActorStays(s, l, g);
    ForwardsOnlyNew(s, l, g);
    if r in s.places {
      NotMailed(s, l, g, r);
    } else if l.SendRequest? {
    } else {
      PlacesAreKept(s, l, r);
    }
  }

  lemma PlacesAreKept(s: State, l: Label, r: RequestId)
    requires Inv(s) && Enabled(s, l) && r !in s.places && !l.SendRequest?
    ensures r !in Apply(s, l).places
  {
    hide HandleMsg, ActorNext;
    if Local(l) {
      LocalPlacesAreKept(s, l, r);
    } else if l.Handle? {
      var e := HandleIsHandled(s);
      HandledPlacesAreKept(s, ApplyHandle(s), e, r);
    } else if l.Forward? {
      assert At(s, s.forwarding.value.1, Forwarding(s.forwarding.value.0));
    }
  }

  lemma LocalPlacesAreKept(s: State, l: Label, r: RequestId)
    requires PlacesOk(s) && Local(l) && LocalEnabled(s, l) && r !in s.places
    ensures r !in ApplyLocal(s, l).places
  {
    var g := Target(s, l);
    if l.Receive? {
      assert At(s, s.actors[g].mailbox[0], Mailed(g));
    } else if l.AnswerClosed? {
      assert At(s, s.actors[g].phase.req, Held(g));
    }
  }

  lemma HandledPlacesAreKept(s: State, s': State, e: Effect, r: RequestId)
    requires PlacesOk(s) && Handled(s, s', e) && r !in s.places
    ensures r !in s'.places
  {
    if !e.Nothing? {
      assert e.req in QueuedRequests(s.queue);
      assert At(s, e.req, Queued);
    }
  }

  lemma ForwardsOnlyNew(s: State, l: Label, g: Generation)
    requires Inv(s) && Enabled(s, l) && g < s.table.next && (s.forwarding.Some? ==> s.forwarding.value.0 != g)
    ensures Apply(s, l).forwarding.Some? ==> Apply(s, l).forwarding.value.0 != g
  {
    if l.Handle? {
      HandleFrame(s.table, s.limit, s.queue[0], SlotOutcome(s, s.queue[0].id));
    }
  }

  lemma NotMailed(s: State, l: Label, g: Generation, r: RequestId)
    requires Inv(s) && Enabled(s, l) && g in s.actors && Superseded(s, s.actors[g].id, g)
    requires s.forwarding.Some? ==> s.forwarding.value.0 != g
    requires r in s.places && s.places[r] != Mailed(g)
    ensures r in Apply(s, l).places && Apply(s, l).places[r] != Mailed(g)
  {
    StepFollows(s, l, r);
    assert At(s, r, s.places[r]);
    if l.Handle? {
      var e := HandleIsHandled(s);
      HandledNotMailed(s, ApplyHandle(s), e, g, r);
    }
  }

  lemma HandledNotMailed(s: State, s': State, e: Effect, g: Generation, r: RequestId)
    requires SlotsOk(s) && Handled(s, s', e) && g in s.actors && !Matches(s.table, s.actors[g].id, g)
    requires e.Forwarded? ==> Matches(s.table, s.queue[0].id, e.generation)
    requires r in s.places && s.places[r] != Mailed(g) && r in s'.places
    ensures s'.places[r] != Mailed(g)
  {
    if e.Forwarded? {
      assert s.actors[e.generation].id == s.queue[0].id;
    }
  }
}
