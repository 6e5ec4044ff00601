// Every step of the pool protocol keeps the invariant.

module PoolSteps {
  import opened Wrappers
  import opened PoolTable
  import opened PoolProtocol
  import opened PoolInvariant

  // ---------------------------------------------------------------------------
  // Steps of one actor
  // ---------------------------------------------------------------------------

  lemma LinkStaysFit(a: Actor, l: Label, closed: bool)
    requires Local(l) && ActorEnabled(a, l, closed) && LinkFits(a) && (a.idleActive ==> a.link.Up?)
    ensures LinkFits(ActorNext(a, l, closed))
  {
  }

  lemma LeaseStaysFit(a: Actor, l: Label, closed: bool)
    requires Local(l) && ActorEnabled(a, l, closed) && LinkFits(a) && LeaseFits(a)
    ensures LeaseFits(ActorNext(a, l, closed))
  {
  }

  lemma ActorStaysOk(a: Actor, l: Label, closed: bool)
    requires Local(l) && ActorEnabled(a, l, closed) && ActorOk(a)
    ensures ActorOk(ActorNext(a, l, closed))
  {
    LinkStaysFit(a, l, closed);
    LeaseStaysFit(a, l, closed);
  }

  lemma FailureStaysKnown(a: Actor, l: Label, closed: bool)
    requires Local(l) && ActorEnabled(a, l, closed) && FailureKnown(a)
    ensures FailureKnown(ActorNext(a, l, closed))
  {
  }

  /** An actor announces its end by sending `Shutdown`, and never takes it back. */
  lemma AnnouncesBySending(a: Actor, l: Label, closed: bool)
    requires Local(l) && ActorEnabled(a, l, closed) && ActorOk(a)
    ensures Announces(ActorNext(a, l, closed)) ==> Announces(a) || (l.Report? && !a.phase.ReportIdle?)
    ensures Announces(a) ==> Announces(ActorNext(a, l, closed))
  {
  }

  lemma DrainsOnlyWhenClosed(a: Actor, l: Label, closed: bool)
    requires Local(l) && ActorEnabled(a, l, closed)
    ensures Draining(ActorNext(a, l, closed)) ==> closed || Draining(a)
  {
  }

  lemma StaysTracked(a: Actor, l: Label, closed: bool)
    requires Local(l) && ActorEnabled(a, l, closed) && ActorOk(a)
    ensures SelfTracked(a) ==> SelfTracked(ActorNext(a, l, closed)) || (l.Report? && a.phase.ReportIdle?)
  {
  }

  /** Only the actor of `g` changes, and the queue grows by what it sends, if anything. */
  ghost predicate LocalFrame(s: State, s': State, g: Generation) {
    && g in s.actors && g in s'.actors && s'.actors == s.actors[g := s'.actors[g]]
    && s'.actors[g].id == s.actors[g].id
    && s'.table == s.table && s'.limit == s.limit && s'.forwarding == s.forwarding
    && s'.closed == s.closed && s'.running == s.running
    && (s'.queue == s.queue || s'.queue == s.queue + [Reported(s.actors[g], g)])
    && |s'.queue| <= POOL_CHANNEL_CAPACITY
  }

  lemma LocalFrames(s: State, l: Label)
    requires Local(l) && LocalEnabled(s, l) && ActorsOk(s)
    ensures LocalFrame(s, ApplyLocal(s, l), Target(s, l))
  {
    hide ActorNext, ActorOk, Reported, ReceivedPlace, DropAll;
    NextKeepsId(s.actors[Target(s, l)], l, s.closed);
  }

  lemma NextKeepsId(a: Actor, l: Label, closed: bool)
    requires Local(l) && ActorEnabled(a, l, closed)
    ensures ActorNext(a, l, closed).id == a.id
  {
    hide AfterReport, AfterReceive, AfterWake;
  }

  lemma QueueKeeps(q: seq<Msg>, m: Msg, n: Msg)
    requires m in q
    ensures m in q + [n]
  {
    var i :| 0 <= i < |q| && q[i] == m;
    assert (q + [n])[i] == m;
  }

  lemma LocalKeepsActors(s: State, s': State, g: Generation)
    requires ActorsOk(s) && LocalFrame(s, s', g) && ActorOk(s'.actors[g]) && FailureKnown(s'.actors[g])
    requires s.actors[g].mailbox == [] ==> s'.actors[g].mailbox == []
    ensures ActorsOk(s')
  {
  }

  lemma LocalKeepsSlots(s: State, s': State, g: Generation)
    requires SlotsOk(s) && LocalFrame(s, s', g)
    ensures SlotsOk(s')
  {
  }

  lemma LocalKeepsAnnounced(s: State, s': State, g: Generation)
    requires AnnouncedOk(s) && LocalFrame(s, s', g)
    requires Announces(s'.actors[g]) ==> Announces(s.actors[g]) || !s.running || Shutdown(s.actors[g].id, g) in s'.queue
    requires Draining(s'.actors[g]) ==> s.closed || Draining(s.actors[g])
    ensures AnnouncedOk(s')
  {
    forall h | h in s'.actors && Announces(s'.actors[h]) ensures Announced(s', s'.actors[h].id, h) {
      if Shutdown(s'.actors[h].id, h) in s.queue {
        QueueKeeps(s.queue, Shutdown(s'.actors[h].id, h), Reported(s.actors[g], g));
      }
    }
  }

  lemma LocalKeepsTracked(s: State, s': State, g: Generation)
    requires SlotsOk(s) && TrackedOk(s) && LocalFrame(s, s', g)
    requires SelfTracked(s.actors[g]) ==> SelfTracked(s'.actors[g]) || !s.running || Idle(s.actors[g].id, g) in s'.queue
    ensures TrackedOk(s')
  {
    forall p | p in s'.table.connections && s'.table.connections[p] in s'.actors
      ensures Tracked(s', p, s'.table.connections[p])
    {
      var h := s.table.connections[p];
      assert Tracked(s, p, h);
      if Idle(p, h) in s.queue {
        QueueKeeps(s.queue, Idle(p, h), Reported(s.actors[g], g));
      }
    }
  }

  lemma LocalSends(s: State, l: Label)
    requires Local(l) && LocalEnabled(s, l)
    ensures l.Report? && s.running ==> Reported(s.actors[Target(s, l)], Target(s, l)) in ApplyLocal(s, l).queue
  {
    var g := Target(s, l);
    if l.Report? && s.running {
      assert ApplyLocal(s, l).queue[|s.queue|] == Reported(s.actors[g], g);
    }
  }

  lemma LocalKeepsMost(s: State, l: Label)
    requires Local(l) && LocalEnabled(s, l)
    requires ActorsOk(s) && SlotsOk(s) && AnnouncedOk(s) && TrackedOk(s)
    ensures var s' := ApplyLocal(s, l); ActorsOk(s') && SlotsOk(s') && AnnouncedOk(s') && TrackedOk(s')
  {
    var (g, s') := (Target(s, l), ApplyLocal(s, l));
    var a := s.actors[g];
    assert ActorOk(a);
    LocalFrames(s, l);
    LocalSends(s, l);
    ActorStaysOk(a, l, s.closed);
    FailureStaysKnown(a, l, s.closed);
    AnnouncesBySending(a, l, s.closed);
    DrainsOnlyWhenClosed(a, l, s.closed);
    StaysTracked(a, l, s.closed);
    assert s'.actors[g] == ActorNext(a, l, s.closed);
    assert a.mailbox == [] ==> s'.actors[g].mailbox == [];
    LocalKeepsActors(s, s', g);
    LocalKeepsSlots(s, s', g);
    LocalKeepsAnnounced(s, s', g);
    LocalKeepsTracked(s, s', g);
  }

  // Requests and leases in a step of one actor.

  lemma QueuedAfterAppend(q: seq<Msg>, m: Msg)
    ensures QueuedRequests(q + [m]) == QueuedRequests(q) + if m.Request? then {m.req} else {}
    ensures DistinctQueued(q) && (m.Request? ==> m.req !in QueuedRequests(q)) ==> DistinctQueued(q + [m])
  {
    var q' := q + [m];
    forall r | r in QueuedRequests(q) ensures r in QueuedRequests(q') {
      var i :| 0 <= i < |q| && q[i].Request? && q[i].req == r;
      assert q'[i] == q[i];
    }
    if m.Request? {
      assert q'[|q|] == m;
    }
  }

  lemma QueuedAfterPop(q: seq<Msg>)
    requires q != [] && DistinctQueued(q)
    ensures QueuedRequests(q[1..]) == QueuedRequests(q) - if q[0].Request? then {q[0].req} else {}
    ensures q[0].Request? ==> q[0].req in QueuedRequests(q)
    ensures DistinctQueued(q[1..])
  {
    var q' := q[1..];
    forall r | r in QueuedRequests(q) && (q[0].Request? ==> r != q[0].req) ensures r in QueuedRequests(q') {
      var i :| 0 <= i < |q| && q[i].Request? && q[i].req == r;
      assert q'[i - 1] == q[i];
    }
    forall r | r in QueuedRequests(q') ensures r in QueuedRequests(q) && (q[0].Request? ==> r != q[0].req) {
      var i :| 0 <= i < |q'| && q'[i].Request? && q'[i].req == r;
      assert q[i + 1] == q'[i];
    }
  }

  /** Receive, AnswerClosed and Stop apart, an actor keeps the requests it has. */
  lemma KeepsItsRequests(a: Actor, l: Label, closed: bool)
    requires Local(l) && ActorEnabled(a, l, closed) && !l.Receive? && !l.AnswerClosed? && !l.Stop?
    ensures ActorNext(a, l, closed).mailbox == a.mailbox
    ensures HeldBy(ActorNext(a, l, closed)) == HeldBy(a)
  {
    hide AfterReceive;
    match l
    case DropLease(_) =>
    case NotifyOne(_) =>
    case ConnectUp(_) =>
    case ConnectFailed(_, _) =>
    case Enter(_) =>
    case RemoteClose(_) =>
    case Report(_) =>
    case SeeShutdown(_) =>
    case SeeClosed(_) =>
    case Wake(_) =>
    case Expire(_) =>
  }

  lemma LocalKeepsPlaces(s: State, l: Label)
    requires Local(l) && LocalEnabled(s, l) && PlacesOk(s)
    ensures PlacesOk(ApplyLocal(s, l))
  {
    var (g, s') := (Target(s, l), ApplyLocal(s, l));
    var a := s.actors[g];
    if l.Receive? {
      ReceiveKeepsPlaces(s, l);
    } else if l.AnswerClosed? {
      AnswerKeepsPlaces(s, l);
    } else if l.Stop? {
      StopKeepsPlaces(s, l);
    } else {
      QueuedAfterAppend(s.queue, Reported(a, g));
      KeepsItsRequests(a, l, s.closed);
      forall r, place ensures At(s', r, place) <==> At(s, r, place) {
      }
    }
  }

  /** One request moves to a new place and all others stay. */
  lemma OneMoved(s: State, s': State, r0: RequestId, to: Place)
    requires PlacesOk(s) && s'.places == s.places[r0 := to]
    requires DistinctQueued(s'.queue) && forall g :: g in s'.actors ==> Distinct(s'.actors[g].mailbox)
    requires forall place :: At(s', r0, place) <==> place == to
    requires forall r, place :: r != r0 ==> (At(s', r, place) <==> At(s, r, place))
    ensures PlacesOk(s')
  {
  }

  lemma ReceiveKeepsPlaces(s: State, l: Label)
    requires l.Receive? && LocalEnabled(s, l) && PlacesOk(s)
    ensures PlacesOk(ApplyLocal(s, l))
  {
    var (g, s') := (l.g, ApplyLocal(s, l));
    assert At(s, s.actors[g].mailbox[0], Mailed(g));
    ReceivedKeepsPlaces(s, s', g, s.actors[g], s'.actors[g]);
  }

  lemma ReceivedKeepsPlaces(s: State, s': State, g: Generation, a: Actor, b: Actor)
    requires PlacesOk(s) && g in s.actors && s.actors[g] == a && s'.actors == s.actors[g := b]
    requires a.mailbox != [] && b.mailbox == a.mailbox[1..] && HeldBy(a).None?
    requires At(s, a.mailbox[0], Mailed(g))
    requires HeldBy(b) == if ReceivedPlace(a, g).Held? then Some(a.mailbox[0]) else None
    requires s'.places == s.places[a.mailbox[0] := ReceivedPlace(a, g)]
    requires s'.queue == s.queue && s'.forwarding == s.forwarding
    ensures PlacesOk(s')
  {
    var r0 := a.mailbox[0];
    assert forall r :: r in b.mailbox <==> r in a.mailbox && r != r0;
    forall place ensures At(s', r0, place) <==> place == s'.places[r0] {
      assert At(s, r0, place) ==> place == Mailed(g);
    }
    forall r, place | r != r0 ensures At(s', r, place) <==> At(s, r, place) {
    }
    OneMoved(s, s', r0, s'.places[r0]);
  }

  lemma AnswerKeepsPlaces(s: State, l: Label)
    requires l.AnswerClosed? && LocalEnabled(s, l) && PlacesOk(s)
    ensures PlacesOk(ApplyLocal(s, l))
  {
    var (g, s') := (l.g, ApplyLocal(s, l));
    var r0 := s.actors[g].phase.req;
    assert At(s, r0, Held(g));
    forall place ensures At(s', r0, place) <==> place == s'.places[r0] {
      assert At(s, r0, place) ==> place == Held(g);
    }
    forall r, place | r != r0 ensures At(s', r, place) <==> At(s, r, place) {
    }
    OneMoved(s, s', r0, s'.places[r0]);
  }

  lemma StopKeepsPlaces(s: State, l: Label)
    requires l.Stop? && LocalEnabled(s, l) && PlacesOk(s)
    ensures PlacesOk(ApplyLocal(s, l))
  {
    var (g, s') := (l.g, ApplyLocal(s, l));
    var gone := s.actors[g].mailbox;
    forall r | r in gone ensures At(s, r, Mailed(g)) {
    }
    forall r, place ensures At(s', r, place) <==> if r in gone then place == Dropped else At(s, r, place) {
      assert At(s, r, place) && r in gone ==> place == Mailed(g);
    }
  }

  lemma LocalKeepsCounts(s: State, l: Label)
    requires Local(l) && LocalEnabled(s, l) && ActorsOk(s) && CountsOk(s) && PlacesOk(s)
    ensures CountsOk(ApplyLocal(s, l))
  {
    var (g, s') := (Target(s, l), ApplyLocal(s, l));
    var a := s.actors[g];
    LocalKeepsAnswers(s, l);
    if l.DropLease? {
      DropKeepsCounts(s, l);
    } else if l.Receive? {
      ReceiveKeepsCounts(s, l);
    } else {
      assert s'.actors[g].count == a.count by { KeepsItsCount(a, l, s.closed); }
    }
  }

  lemma KeepsItsCount(a: Actor, l: Label, closed: bool)
    requires Local(l) && ActorEnabled(a, l, closed) && !l.Receive? && !l.DropLease?
    ensures ActorNext(a, l, closed).count == a.count
  {
    hide AfterReceive, AfterReport, AfterWake;
  }

  /** An answer, once given, stands. */
  lemma LocalKeepsAnswers(s: State, l: Label)
    requires Local(l) && LocalEnabled(s, l) && PlacesOk(s)
    ensures forall r :: r in s.places && (s.places[r].Answered? || s.places[r].Dropped?) ==>
                        r in ApplyLocal(s, l).places && ApplyLocal(s, l).places[r] == s.places[r]
  {
    var g := Target(s, l);
    var a := s.actors[g];
    if l.Receive? {
      assert At(s, a.mailbox[0], Mailed(g));
    } else if l.AnswerClosed? {
      assert At(s, a.phase.req, Held(g));
    } else if l.Stop? {
      forall r | r in a.mailbox ensures At(s, r, Mailed(g)) {
      }
    }
  }

  lemma DropKeepsCounts(s: State, l: Label)
    requires l.DropLease? && LocalEnabled(s, l) && CountsOk(s)
    ensures forall h :: h in s.actors ==> ApplyLocal(s, l).actors[h].count == |LeasesOf(s.leases - {l.r}, h)|
  {
    var g := s.leases[l.r];
    assert LeasesOf(s.leases - {l.r}, g) == LeasesOf(s.leases, g) - {l.r};
    forall h | h in s.actors && h != g ensures LeasesOf(s.leases - {l.r}, h) == LeasesOf(s.leases, h) {
    }
  }

  lemma ReceiveKeepsCounts(s: State, l: Label)
    requires l.Receive? && LocalEnabled(s, l) && ActorsOk(s) && CountsOk(s) && PlacesOk(s)
    ensures CountsOk(ApplyLocal(s, l))
  {
    var (g, s') := (l.g, ApplyLocal(s, l));
    var a := s.actors[g];
    assert At(s, a.mailbox[0], Mailed(g));
    assert ActorOk(a);
    if ReceivedPlace(a, g) == Answered(Lease(g)) {
      GrantKeepsCounts(s, s', g, a.mailbox[0]);
    } else {
      assert s'.leases == s.leases && s'.actors[g].count == a.count;
    }
  }

  lemma GrantKeepsCounts(s: State, s': State, g: Generation, r0: RequestId)
    requires CountsOk(s) && g in s.actors && r0 !in s.leases
    requires s'.leases == s.leases[r0 := g] && s'.places == s.places[r0 := Answered(Lease(g))]
    requires g in s'.actors && s'.actors == s.actors[g := s'.actors[g]] && s'.actors[g].count == s.actors[g].count + 1
    ensures CountsOk(s')
  {
    assert LeasesOf(s'.leases, g) == LeasesOf(s.leases, g) + {r0};
    forall h | h in s.actors && h != g ensures LeasesOf(s'.leases, h) == LeasesOf(s.leases, h) {
    }
  }

  // ---------------------------------------------------------------------------
  // The pool actor handles one message
  // ---------------------------------------------------------------------------

  /** What handling one message does to the slots. */
  ghost predicate SlotsHandled(s: State, s': State, e: Effect) {
    && OldOrSpawned(s.table, s'.table, e)
    && (e.Spawned? ==> e.generation == s.table.next && s'.table.next == s.table.next + 1)
    && (!e.Spawned? ==> s'.table.next == s.table.next)
  }

  /** The rest of the state. */
  ghost predicate Handled(s: State, s': State, e: Effect) {
    && s.running && s.forwarding.None? && s.queue != []
    && (e.Nothing? <==> !s.queue[0].Request?)
    && (!e.Nothing? ==> e.req == s.queue[0].req)
    && (e.Forwarded? ==> e.generation in s.actors)
    && (e.Spawned? ==> e.generation !in s.actors)
    && s'.queue == s.queue[1..]
    && s'.forwarding == (if e.Spawned? then Some((e.generation, e.req)) else None)
    && s'.actors == EffectActors(s.actors, e)
    && s'.places == EffectPlaces(s.places, e)
    && s'.leases == s.leases && s'.limit == s.limit && s'.running && s'.closed == s.closed
  }

  lemma HandleIsHandled(s: State) returns (e: Effect)
    requires SlotsOk(s) && Enabled(s, Handle)
    ensures TableInv(ApplyHandle(s).table, s.limit)
    ensures SlotsHandled(s, ApplyHandle(s), e) && Handled(s, ApplyHandle(s), e)
    ensures e.Spawned? ==> Matches(ApplyHandle(s).table, e.id, e.generation)
    ensures e.Forwarded? ==> Matches(s.table, s.queue[0].id, e.generation) && SlotOutcome(s, s.queue[0].id).Accepted?
    ensures (ApplyHandle(s).table, e) == HandleMsg(s.table, s.limit, s.queue[0], SlotOutcome(s, s.queue[0].id))
  {
    var outcome := SlotOutcome(s, s.queue[0].id);
    e := HandleMsg(s.table, s.limit, s.queue[0], outcome).1;
    HandleKeepsTable(s.table, s.limit, s.queue[0], outcome);
    HandleFrame(s.table, s.limit, s.queue[0], outcome);
  }

  lemma HandledKeepsActors(s: State, s': State, e: Effect)
    requires ActorsOk(s) && Handled(s, s', e)
    requires e.Forwarded? ==> MailOutcome(s.actors[e.generation]).Accepted?
    ensures ActorsOk(s')
  {
    if e.Forwarded? {
      assert ActorOk(s.actors[e.generation]);
    }
  }

  /** After the message there are the same actors as before, but for the one just spawned. */
  ghost predicate SameActors(s: State, s': State, e: Effect) {
    && (forall g :: g in s.actors ==> g in s'.actors && s'.actors[g].id == s.actors[g].id)
    && (forall g :: g in s'.actors ==> g in s.actors || (e.Spawned? && g == e.generation))
    && (e.Spawned? ==> e.generation in s'.actors && s'.actors[e.generation].id == e.id)
  }

  lemma HandledSameActors(s: State, s': State, e: Effect)
    requires Handled(s, s', e)
    ensures SameActors(s, s', e)
    ensures forall g :: g in s'.actors && Announces(s'.actors[g]) ==> g in s.actors && Announces(s.actors[g])
    ensures forall g :: g in s'.actors && Draining(s'.actors[g]) ==> g in s.actors && Draining(s.actors[g])
  {
  }

  /** A slot after the message names a current actor of its peer: the one it named before, or the
      one just spawned, which is newer than all others. */
  lemma SlotHandled(s: State, s': State, e: Effect, p: Peer)
    requires SlotsOk(s) && SlotsHandled(s, s', e) && SameActors(s, s', e)
    requires p in s'.table.connections
    requires e.Spawned? && p == e.id ==> s'.table.connections[p] == e.generation
    ensures s'.table.connections[p] in s'.actors && s'.actors[s'.table.connections[p]].id == p
    ensures forall g :: g in s'.actors && s'.actors[g].id == p ==> g <= s'.table.connections[p]
  {
    if !(e.Spawned? && p == e.id) {
      assert Matches(s.table, p, s'.table.connections[p]);
    }
  }

  lemma HandledKeepsSlots(s: State, s': State, e: Effect)
    requires SlotsOk(s) && SlotsHandled(s, s', e) && SameActors(s, s', e)
    requires s'.running && s'.limit == s.limit
    requires TableInv(s'.table, s.limit) && (e.Spawned? ==> Matches(s'.table, e.id, e.generation))
    ensures SlotsOk(s')
  {
    hide TableInv;
    forall p | p in s'.table.connections
      ensures s'.table.connections[p] in s'.actors && s'.actors[s'.table.connections[p]].id == p
    {
      SlotHandled(s, s', e, p);
    }
    forall g | g in s'.actors && s'.actors[g].id in s'.table.connections
      ensures g <= s'.table.connections[s'.actors[g].id]
    {
      SlotHandled(s, s', e, s'.actors[g].id);
    }
  }

  lemma HandledKeepsCounts(s: State, s': State, e: Effect)
    requires CountsOk(s) && PlacesOk(s) && SlotsOk(s) && Handled(s, s', e)
    ensures CountsOk(s')
  {
    if !e.Nothing? {
      QueuedAfterPop(s.queue);
      assert At(s, s.queue[0].req, Queued);
      assert s'.places == s.places || s'.places == s.places[s.queue[0].req := s'.places[s.queue[0].req]];
    }
    assert s'.leases == s.leases;
    forall g | g in s'.actors ensures s'.actors[g].count == |LeasesOf(s.leases, g)| {
      if g !in s.actors {
        assert LeasesOf(s.leases, g) == {};
      }
    }
  }

  /** The one fact about Shutdown that the end of a generation rests on: once handled, the slot is gone. */
  lemma AnnouncedAfterHandle(s: State, s': State, e: Effect, p: Peer, g: Generation)
    requires SlotsOk(s) && SlotsHandled(s, s', e) && s.queue != [] && s'.queue == s.queue[1..]
    requires s.queue[0].Shutdown? ==> s'.table == RemoveIfMatch(s.table, s.queue[0].id, s.queue[0].generation)
    requires e.Spawned? ==> Matches(s'.table, e.id, e.generation)
    requires g < s.table.next && s.running && Announced(s, p, g)
    ensures Announced(s', p, g)
  {
    if Shutdown(p, g) in s.queue {
      var i :| 0 <= i < |s.queue| && s.queue[i] == Shutdown(p, g);
      if i > 0 {
        assert s'.queue[i - 1] == Shutdown(p, g);
      }
    } else {
      assert Matches(s'.table, p, g) ==> Matches(s.table, p, g);
    }
  }

  lemma HandledKeepsAnnounced(s: State, s': State, e: Effect)
    requires SlotsOk(s) && AnnouncedOk(s) && SlotsHandled(s, s', e) && Handled(s, s', e)
    requires s.queue[0].Shutdown? ==> s'.table == RemoveIfMatch(s.table, s.queue[0].id, s.queue[0].generation)
    requires e.Spawned? ==> Matches(s'.table, e.id, e.generation)
    ensures AnnouncedOk(s')
  {
    HandledSameActors(s, s', e);
    forall g | g in s'.actors && Announces(s'.actors[g]) ensures Announced(s', s'.actors[g].id, g) {
      AnnouncedAfterHandle(s, s', e, s.actors[g].id, g);
    }
  }

  lemma HandledKeepsTracked(s: State, s': State, e: Effect)
    requires ActorsOk(s) && SlotsOk(s) && TrackedOk(s) && SlotsHandled(s, s', e) && Handled(s, s', e)
    requires (s'.table, e) == HandleMsg(s.table, s.limit, s.queue[0], SlotOutcome(s, s.queue[0].id))
    requires e.Spawned? ==> Matches(s'.table, e.id, e.generation)
    ensures TrackedOk(s')
  {
    forall p | p in s'.table.connections && s'.table.connections[p] in s'.actors
      ensures Tracked(s', p, s'.table.connections[p])
    {
      SlotStaysTracked(s, s', e, p);
    }
  }

  lemma SlotStaysTracked(s: State, s': State, e: Effect, p: Peer)
    requires ActorsOk(s) && SlotsOk(s) && TrackedOk(s) && SlotsHandled(s, s', e) && Handled(s, s', e)
    requires (s'.table, e) == HandleMsg(s.table, s.limit, s.queue[0], SlotOutcome(s, s.queue[0].id))
    requires e.Spawned? ==> Matches(s'.table, e.id, e.generation)
    requires p in s'.table.connections && s'.table.connections[p] in s'.actors
    ensures Tracked(s', p, s'.table.connections[p])
  {
    var g := s'.table.connections[p];
    if !(e.Spawned? && p == e.id) {
      assert Matches(s.table, p, g);
      assert Tracked(s, p, g);
      OldSlotStaysTracked(s, s', e, p, g);
    }
  }

  lemma OldSlotStaysTracked(s: State, s': State, e: Effect, p: Peer, g: Generation)
    requires ActorsOk(s) && SlotsOk(s) && SlotsHandled(s, s', e) && Handled(s, s', e)
    requires (s'.table, e) == HandleMsg(s.table, s.limit, s.queue[0], SlotOutcome(s, s.queue[0].id))
    requires Matches(s.table, p, g) && g in s.actors && Tracked(s, p, g)
    requires Matches(s'.table, p, g) && g in s'.actors && !(e.Spawned? && p == e.id)
    ensures Tracked(s', p, g)
  {
    hide HandleMsg, ActorsOk;
    var m := s.queue[0];
    if m.Request? && m.id == p {
      HandleFrame(s.table, s.limit, m, SlotOutcome(s, m.id));
      AskedSlotStaysTracked(s, s', e, p, g);
    } else if (p, g) in s.table.idle {
      HandleKeepsIdle(s.table, s.limit, m, SlotOutcome(s, m.id), (p, g));
    } else if Idle(p, g) in s.queue {
      QueuedIdleStaysTracked(s, s', e, p, g);
    } else {
      assert SelfTracked(s.actors[g]);
      assert s'.actors[g] == s.actors[g] || s'.actors[g].mailbox != [];
    }
  }

  lemma QueuedIdleStaysTracked(s: State, s': State, e: Effect, p: Peer, g: Generation)
    requires Handled(s, s', e) && Idle(p, g) in s.queue && Matches(s.table, p, g)
    requires (s'.table, e) == HandleMsg(s.table, s.limit, s.queue[0], SlotOutcome(s, s.queue[0].id))
    ensures (p, g) in s'.table.idle || Idle(p, g) in s'.queue
  {
    var i :| 0 <= i < |s.queue| && s.queue[i] == Idle(p, g);
    if i > 0 {
      assert s.queue[1..][i - 1] == Idle(p, g);
    } else {
      assert s'.table.idle[|s'.table.idle| - 1] == (p, g);
    }
  }

  /** The peer of the request: it has the request in its mailbox, or its mailbox was full already. */
  lemma AskedSlotStaysTracked(s: State, s': State, e: Effect, p: Peer, g: Generation)
    requires ActorsOk(s) && SlotsOk(s) && SlotsHandled(s, s', e) && Handled(s, s', e)
    requires (s'.table, e) == HandleMsg(s.table, s.limit, s.queue[0], SlotOutcome(s, s.queue[0].id))
    requires s.queue[0].Request? && s.queue[0].id == p
    requires Matches(s.table, p, g) && g in s.actors
    requires Matches(s'.table, p, g) && g in s'.actors && !e.Spawned?
    ensures s'.actors[g].mailbox != []
  {
    hide Evict, TableInv, ActorOk, Without;
    assert SlotOutcome(s, p) == MailOutcome(s.actors[g]);
    ForgetKeepsTable(s.table, s.limit, p);
    AdmitFrame(Forget(s.table, p), s.limit, s.queue[0].req, p);
  }

  lemma OtherRequestStays(s: State, s': State, e: Effect, r: RequestId, place: Place)
    requires Handled(s, s', e) && DistinctQueued(s.queue)
    requires e.Nothing? || r != e.req
    ensures At(s', r, place) <==> At(s, r, place)
  {
    QueuedAfterPop(s.queue);
    match place
    case Queued =>
    case Forwarding(_) =>
    case Mailed(h) =>
    case Held(h) =>
    case Answered(_) =>
    case Dropped =>
  }

  lemma HandledRequestMoves(s: State, s': State, e: Effect, place: Place)
    requires Handled(s, s', e) && DistinctQueued(s.queue) && !e.Nothing?
    requires At(s, e.req, place) ==> place == Queued
    ensures At(s', e.req, place) <==> place == EffectPlaces(s.places, e)[e.req]
  {
    QueuedAfterPop(s.queue);
    match place
    case Queued =>
    case Forwarding(_) =>
    case Mailed(h) => assert h in s.actors ==> e.req !in s.actors[h].mailbox;
    case Held(h) =>
    case Answered(_) =>
    case Dropped =>
  }

  lemma HandledMailboxes(s: State, s': State, e: Effect)
    requires Handled(s, s', e)
    requires forall g :: g in s.actors ==> Distinct(s.actors[g].mailbox)
    requires e.Forwarded? && e.generation in s.actors ==> e.req !in s.actors[e.generation].mailbox
    ensures forall g :: g in s'.actors ==> Distinct(s'.actors[g].mailbox)
  {
  }

  lemma HandledKeepsPlaces(s: State, s': State, e: Effect)
    requires PlacesOk(s) && Handled(s, s', e)
    ensures PlacesOk(s')
  {
    QueuedAfterPop(s.queue);
    forall r, place | e.Nothing? || r != e.req ensures At(s', r, place) <==> At(s, r, place) {
      OtherRequestStays(s, s', e, r, place);
    }
    if e.Nothing? {
      HandledMailboxes(s, s', e);
    } else {
      assert At(s, e.req, Queued);
      assert !At(s, e.req, Mailed(if e.Forwarded? then e.generation else 0));
      HandledMailboxes(s, s', e);
      forall place ensures At(s', e.req, place) <==> place == s'.places[e.req] {
        HandledRequestMoves(s, s', e, place);
      }
      OneMoved(s, s', e.req, s'.places[e.req]);
    }
  }

  lemma HandleKeepsInv(s: State)
    requires Inv(s) && Enabled(s, Handle)
    ensures Inv(ApplyHandle(s))
  {
    var s' := ApplyHandle(s);
    var e := HandleIsHandled(s);
    assert s.queue[0].Shutdown? ==> s'.table == RemoveIfMatch(s.table, s.queue[0].id, s.queue[0].generation);
    HandledKeepsActors(s, s', e);
    HandledSameActors(s, s', e);
    HandledKeepsSlots(s, s', e);
    HandledKeepsCounts(s, s', e);
    HandledKeepsAnnounced(s, s', e);
    HandledKeepsPlaces(s, s', e);
    HandledKeepsTracked(s, s', e);
  }

  // ---------------------------------------------------------------------------
  // The hand-over to a spawned actor
  // ---------------------------------------------------------------------------

  /** The actor is there and takes the request. */
  ghost predicate Delivered(s: State, s': State, g: Generation, r: RequestId) {
    && s.forwarding == Some((g, r)) && s'.forwarding.None? && g in s.actors && !s.actors[g].phase.Stopped?
    && s'.actors == s.actors[g := s.actors[g].(mailbox := s.actors[g].mailbox + [r])]
    && s'.places == s.places[r := Mailed(g)]
    && s'.queue == s.queue && s'.table == s.table && s'.leases == s.leases
    && s'.limit == s.limit && s'.closed == s.closed && s'.running == s.running
  }

  lemma DeliveredKeepsActors(s: State, s': State, g: Generation, r: RequestId)
    requires ActorsOk(s) && SlotsOk(s) && Delivered(s, s', g, r)
    ensures ActorsOk(s') && SlotsOk(s')
  {
    hide TableInv;
    assert ActorOk(s.actors[g]);
  }

  lemma DeliveredKeepsMost(s: State, s': State, g: Generation, r: RequestId)
    requires ActorsOk(s) && SlotsOk(s) && AnnouncedOk(s) && Delivered(s, s', g, r)
    ensures ActorsOk(s') && SlotsOk(s') && AnnouncedOk(s')
  {
    hide TableInv, ActorsOk, SlotsOk;
    DeliveredKeepsActors(s, s', g, r);
    forall h | h in s'.actors && Announces(s'.actors[h]) ensures Announced(s', s'.actors[h].id, h) {
      assert Announces(s.actors[h]);
    }
  }

  lemma DeliveredKeepsTracked(s: State, s': State, g: Generation, r: RequestId)
    requires TrackedOk(s) && Delivered(s, s', g, r)
    ensures TrackedOk(s')
  {
    forall p | p in s'.table.connections && s'.table.connections[p] in s'.actors
      ensures Tracked(s', p, s'.table.connections[p])
    {
      assert Tracked(s, p, s.table.connections[p]);
    }
  }

  lemma DeliveredKeepsRequests(s: State, s': State, g: Generation, r0: RequestId)
    requires ActorsOk(s) && CountsOk(s) && PlacesOk(s) && Delivered(s, s', g, r0)
    ensures CountsOk(s') && PlacesOk(s')
  {
    assert At(s, r0, Forwarding(g));
    forall place ensures At(s', r0, place) <==> place == Mailed(g) {
      assert At(s, r0, place) ==> place == Forwarding(g);
    }
    forall r, place | r != r0 ensures At(s', r, place) <==> At(s, r, place) {
    }
    OneMoved(s, s', r0, Mailed(g));
  }

  /** The actor has stopped already, so its slot goes and the request with it. */
  ghost predicate Undelivered(s: State, s': State, g: Generation, r: RequestId) {
    && s.forwarding == Some((g, r)) && s'.forwarding.None? && g in s.actors && s.actors[g].phase.Stopped?
    && s'.table == RemoveIfMatch(s.table, s.actors[g].id, g)
    && s'.places == s.places[r := Dropped]
    && s'.actors == s.actors && s'.queue == s.queue && s'.leases == s.leases
    && s'.limit == s.limit && s'.closed == s.closed && s'.running == s.running
  }

  lemma UndeliveredKeepsMost(s: State, s': State, g: Generation, r: RequestId)
    requires ActorsOk(s) && SlotsOk(s) && AnnouncedOk(s) && TrackedOk(s) && Undelivered(s, s', g, r)
    ensures ActorsOk(s') && SlotsOk(s') && AnnouncedOk(s') && TrackedOk(s')
  {
    ForgetKeepsTable(s.table, s.limit, s.actors[g].id);
    forall p | p in s'.table.connections ensures Matches(s.table, p, s'.table.connections[p]) {
    }
    forall p | p in s'.table.connections && s'.table.connections[p] in s'.actors
      ensures Tracked(s', p, s'.table.connections[p])
    {
      assert Tracked(s, p, s.table.connections[p]);
    }
  }

  lemma UndeliveredKeepsRequests(s: State, s': State, g: Generation, r0: RequestId)
    requires CountsOk(s) && PlacesOk(s) && Undelivered(s, s', g, r0)
    ensures CountsOk(s') && PlacesOk(s')
  {
    assert At(s, r0, Forwarding(g));
    forall place ensures At(s', r0, place) <==> place == Dropped {
      assert At(s, r0, place) ==> place == Forwarding(g);
    }
    forall r, place | r != r0 ensures At(s', r, place) <==> At(s, r, place) {
    }
    OneMoved(s, s', r0, Dropped);
  }

  lemma ForwardKeepsInv(s: State)
    requires Inv(s) && Enabled(s, Forward)
    ensures Inv(ApplyForward(s))
  {
    var (g, r) := s.forwarding.value;
    var s' := ApplyForward(s);
    if s.actors[g].phase.Stopped? {
      assert Undelivered(s, s', g, r);
      UndeliveredKeepsMost(s, s', g, r);
      UndeliveredKeepsRequests(s, s', g, r);
    } else {
      assert Delivered(s, s', g, r);
      DeliveredKeepsMost(s, s', g, r);
      DeliveredKeepsTracked(s, s', g, r);
      DeliveredKeepsRequests(s, s', g, r);
    }
  }

  // ---------------------------------------------------------------------------
  // Callers, the shutdown flag and the end of the pool actor
  // ---------------------------------------------------------------------------

  ghost predicate Enqueued(s: State, s': State, m: Msg) {
    && s.running && s'.queue == s.queue + [m] && |s.queue| < POOL_CHANNEL_CAPACITY
    && s'.actors == s.actors && s'.table == s.table && s'.leases == s.leases && s'.forwarding == s.forwarding
    && s'.limit == s.limit && s'.closed == s.closed && s'.running
    && s'.places == if m.Request? then s.places[m.req := Queued] else s.places
  }

  lemma EnqueuedKeepsMost(s: State, s': State, m: Msg)
    requires ActorsOk(s) && SlotsOk(s) && AnnouncedOk(s) && TrackedOk(s) && Enqueued(s, s', m)
    ensures ActorsOk(s') && SlotsOk(s') && AnnouncedOk(s') && TrackedOk(s')
  {
    forall n | n in s.queue ensures n in s'.queue {
      QueueKeeps(s.queue, n, m);
    }
    forall p | p in s'.table.connections && s'.table.connections[p] in s'.actors
      ensures Tracked(s', p, s'.table.connections[p])
    {
      assert Tracked(s, p, s.table.connections[p]);
    }
  }

  lemma EnqueuedKeepsPlaces(s: State, s': State, m: Msg)
    requires PlacesOk(s) && Enqueued(s, s', m) && !m.Request?
    ensures PlacesOk(s')
  {
    QueuedAfterAppend(s.queue, m);
    forall r, place ensures At(s', r, place) <==> At(s, r, place) {
    }
  }

  lemma SentKeepsPlaces(s: State, s': State, r0: RequestId, p: Peer)
    requires PlacesOk(s) && Enqueued(s, s', Request(r0, p)) && r0 !in s.places
    ensures PlacesOk(s')
  {
    assert !At(s, r0, Queued);
    QueuedAfterAppend(s.queue, Request(r0, p));
    forall r, place | r != r0 ensures At(s', r, place) <==> At(s, r, place) {
    }
    forall place ensures At(s', r0, place) <==> place == Queued {
      assert !At(s, r0, place);
    }
    OneMoved(s, s', r0, Queued);
  }

  lemma EnqueuedKeepsCounts(s: State, s': State, m: Msg)
    requires CountsOk(s) && Enqueued(s, s', m) && (m.Request? ==> m.req !in s.places)
    ensures CountsOk(s')
  {
  }

  lemma EnqueueKeepsInv(s: State, l: Label)
    requires Inv(s) && Enabled(s, l) && (l.SendRequest? || l.Invalidate?)
    ensures Inv(Apply(s, l))
  {
    hide Announced, TableInv, ActorOk, At, Tracked;
    var m := if l.SendRequest? then Request(l.r, l.p) else Shutdown(s.actors[s.leases[l.r]].id, s.leases[l.r]);
    assert Enqueued(s, Apply(s, l), m);
    EnqueuedKeepsMost(s, Apply(s, l), m);
    EnqueuedKeepsCounts(s, Apply(s, l), m);
    if l.SendRequest? {
      SentKeepsPlaces(s, Apply(s, l), l.r, l.p);
    } else {
      EnqueuedKeepsPlaces(s, Apply(s, l), m);
    }
  }

  /** Neither the flag nor the end of the pool loop touches an actor, a lease or a request. */
  ghost predicate Ending(s: State, s': State) {
    && s'.actors == s.actors && s'.leases == s.leases && s'.forwarding == s.forwarding && s'.limit == s.limit
    && s'.places == s.places && s'.queue == s.queue && (s.closed ==> s'.closed) && s'.table.next == s.table.next
    && ((s'.table == s.table && s'.running == s.running)
        || (!s'.running && s'.table.connections == map[] && s'.table.idle == [] && s.forwarding.None?))
  }

  lemma EndingKeepsInv(s: State, s': State)
    requires Inv(s) && Ending(s, s')
    ensures Inv(s')
  {
    EndingKeepsPlaces(s, s');
    forall p | p in s'.table.connections && s'.table.connections[p] in s'.actors
      ensures Tracked(s', p, s'.table.connections[p])
    {
      assert Tracked(s, p, s.table.connections[p]);
    }
  }

  lemma EndingKeepsPlaces(s: State, s': State)
    requires PlacesOk(s) && Ending(s, s')
    ensures PlacesOk(s')
  {
    forall r, place ensures At(s', r, place) <==> At(s, r, place) {
    }
  }

  lemma PoolDropKeepsInv(s: State, s': State)
    requires Inv(s) && !s.running
    requires s' == s.(queue := [], places := DropQueued(s.places, QueuedRequests(s.queue)))
    ensures Inv(s')
  {
    forall r | r in QueuedRequests(s.queue) ensures At(s, r, Queued) {
    }
    PoolDropKeepsPlaces(s, s');
  }

  lemma PoolDropKeepsPlaces(s: State, s': State)
    requires PlacesOk(s)
    requires s' == s.(queue := [], places := DropQueued(s.places, QueuedRequests(s.queue)))
    ensures PlacesOk(s')
  {
    var gone := QueuedRequests(s.queue);
    forall r | r in gone ensures At(s, r, Queued) {
    }
    forall r, place ensures At(s', r, place) <==> if r in gone then place == Dropped else At(s, r, place) {
      assert At(s, r, place) && r in gone ==> place == Queued;
    }
  }

  /** Every step of every interleaving keeps the invariant. */
  lemma StepKeepsInv(s: State, l: Label)
    requires Inv(s) && Enabled(s, l)
    ensures Inv(Apply(s, l))
  {
    if Local(l) {
      LocalKeepsMost(s, l);
      LocalKeepsCounts(s, l);
      LocalKeepsPlaces(s, l);
    } else {
      match l
      case SendRequest(_, _) => EnqueueKeepsInv(s, l);
      case Invalidate(_) => EnqueueKeepsInv(s, l);
      case ClosePool => EndingKeepsInv(s, Apply(s, l));
      case NotifyWaiters(_) => EndingKeepsInv(s, Apply(s, l));
      case Handle => HandleKeepsInv(s);
      case Forward => ForwardKeepsInv(s);
      case PoolStop => EndingKeepsInv(s, Apply(s, l));
      case PoolDrop => PoolDropKeepsInv(s, Apply(s, l));
    }
  }

  lemma {:induction false} RunKeepsInv(trace: seq<State>, labels: seq<Label>, i: nat)
    requires Run(trace, labels) && i < |trace|
    ensures Inv(trace[i])
  {
    hide Apply, Enabled, Inv;
    if i == 0 {
      StartInv(trace[0].limit);
    } else {
      RunKeepsInv(trace, labels, i - 1);
      assert Step(trace[i - 1], labels[i - 1], trace[i - 1 + 1]);
      StepKeepsInv(trace[i - 1], labels[i - 1]);
    }
  }
}
