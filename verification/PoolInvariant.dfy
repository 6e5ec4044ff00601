// The inductive invariant of the pool protocol, in six parts, each kept by every step.

module PoolInvariant {
  import opened Wrappers
  import opened PoolTable
  import opened PoolProtocol

  // ---------------------------------------------------------------------------
  // 1. Each actor on its own
  // ---------------------------------------------------------------------------

  ghost predicate LinkFits(a: Actor) {
    match a.phase
    case Connecting => a.link.Pending?
    case ReportFailure => a.link.Failed?
    case Entering => !a.link.Pending?
    case Select => !a.link.Pending?
    case ReportIdle => a.link.Up?
    case ReportExpired => a.link.Up?
    case ReportClosed => a.link.Up? && a.remoteClosed
    case ReportStale(_) => a.link.Up? && a.remoteClosed
    case AnswerStale(_) => a.link.Up? && a.remoteClosed
    case Breaking(c) => !a.link.Pending? && (c.Remote? ==> a.link.Up? && a.remoteClosed) && (c.Expired? ==> a.link.Up?)
    case Stopped(c) => !a.link.Pending? && (c.Remote? ==> a.link.Up? && a.remoteClosed) && (c.Expired? ==> a.link.Up?)
  }

  /** The phases an actor enters only with no lease outstanding. */
  predicate CountsZero(a: Actor) {
    || a.idleActive || a.phase.ReportIdle? || a.phase.ReportExpired? || !a.issued
    || (a.phase.Breaking? && !a.phase.cause.Remote?)
    || (a.phase.Stopped? && !a.phase.cause.Remote?)
  }

  /** A wakeup is stored, about to be stored, or no longer needed. */
  predicate WakeupDue(a: Actor) {
    a.permit || a.notifying > 0 || a.idleActive
  }

  ghost predicate LeaseFits(a: Actor) {
    && (!a.link.Up? || a.phase.Entering? ==> !a.issued && !a.idleActive)
    && (CountsZero(a) ==> a.count == 0)
    && (a.phase.Select? && a.issued && a.count == 0 ==> WakeupDue(a))
  }

  ghost predicate ActorOk(a: Actor) {
    && LinkFits(a)
    && LeaseFits(a)
    && |a.mailbox| <= CONNECTION_CHANNEL_CAPACITY
    && (a.phase.Stopped? ==> a.mailbox == [])
  }

  predicate FailureKnown(a: Actor) {
    a.link.Failed? ==> a.link.error == Timeout || a.link.error == ConnectError
  }

  ghost predicate ActorsOk(s: State) {
    && |s.queue| <= POOL_CHANNEL_CAPACITY
    && (forall g :: g in s.actors ==> ActorOk(s.actors[g]) && FailureKnown(s.actors[g]))
    && (s.forwarding.Some? ==>
          s.forwarding.value.0 in s.actors && s.actors[s.forwarding.value.0].mailbox == [])
  }

  // ---------------------------------------------------------------------------
  // 2. The table against the actors
  // ---------------------------------------------------------------------------

  /** Slots name actors of their own peer, and no actor of a peer is newer than the peer's slot. */
  ghost predicate SlotsOk(s: State) {
    && TableInv(s.table, s.limit)
    && (forall p :: p in s.table.connections ==>
          s.table.connections[p] in s.actors && s.actors[s.table.connections[p]].id == p)
    && (forall g :: g in s.actors ==> g < s.table.next)
    && (forall g :: g in s.actors && s.actors[g].id in s.table.connections ==> g <= s.table.connections[s.actors[g].id])
    && (!s.running ==> s.table.connections == map[] && s.forwarding.None?)
  }

  // ---------------------------------------------------------------------------
  // 3. Counters against leases
  // ---------------------------------------------------------------------------

  function LeasesOf(leases: map<RequestId, Generation>, g: Generation): set<RequestId> {
    set r | r in leases && leases[r] == g
  }

  ghost predicate CountsOk(s: State) {
    && (forall r :: r in s.leases ==>
         s.leases[r] in s.actors && r in s.places && s.places[r] == Answered(Lease(s.leases[r])))
    && (forall g :: g in s.actors ==> s.actors[g].count == |LeasesOf(s.leases, g)|)
  }

  // ---------------------------------------------------------------------------
  // 4. Announced ends
  // ---------------------------------------------------------------------------

  /** The actor has told the pool that its generation is over. */
  predicate Announces(a: Actor) {
    || (a.link.Failed? && !a.phase.ReportFailure?)
    || a.phase.AnswerStale?
    || (a.phase.Breaking? && !a.phase.cause.Drained?)
    || (a.phase.Stopped? && !a.phase.cause.Drained?)
  }

  /** The pool knows, or is bound to learn, that the generation is over. */
  ghost predicate Announced(s: State, p: Peer, g: Generation) {
    !s.running || Shutdown(p, g) in s.queue || !Matches(s.table, p, g)
  }

  /** The actor has seen, or left its loop because of, the shutdown flag. */
  predicate Draining(a: Actor) {
    a.shutdownPending || a.phase == Breaking(Drained) || a.phase == Stopped(Drained)
  }

  ghost predicate AnnouncedOk(s: State) {
    && (forall g :: g in s.actors && Announces(s.actors[g]) ==> Announced(s, s.actors[g].id, g))
    && (forall g :: g in s.actors && Draining(s.actors[g]) ==> s.closed)
  }

  // ---------------------------------------------------------------------------
  // 5. Where requests are
  // ---------------------------------------------------------------------------

  /** The request an actor has taken from its mailbox and not yet answered. */
  function HeldBy(a: Actor): Option<RequestId> {
    match a.phase
    case ReportStale(r) => Some(r)
    case AnswerStale(r) => Some(r)
    case _ => None
  }

  ghost predicate DistinctQueued(queue: seq<Msg>) {
    forall i, j :: 0 <= i < j < |queue| && queue[i].Request? && queue[j].Request? ==> queue[i].req != queue[j].req
  }

  ghost predicate Distinct(q: seq<RequestId>) {
    forall i, j :: 0 <= i < j < |q| ==> q[i] != q[j]
  }

  /** Request `r` is physically at `place`. */
  ghost predicate At(s: State, r: RequestId, place: Place) {
    match place
    case Queued => r in QueuedRequests(s.queue)
    case Forwarding(g) => s.forwarding == Some((g, r))
    case Mailed(g) => g in s.actors && r in s.actors[g].mailbox
    case Held(g) => g in s.actors && HeldBy(s.actors[g]) == Some(r)
    case Answered(answer) => r in s.places && s.places[r] == Answered(answer)
    case Dropped => r in s.places && s.places[r] == Dropped
  }

  ghost predicate PlacesOk(s: State) {
    && DistinctQueued(s.queue)
    && (forall g :: g in s.actors ==> Distinct(s.actors[g].mailbox))
    && (forall r, place :: At(s, r, place) ==> r in s.places && s.places[r] == place)
    && (forall r :: r in s.places ==> At(s, r, s.places[r]))
  }

  // ---------------------------------------------------------------------------
  // 6. Nothing idle is forgotten
  // ---------------------------------------------------------------------------

  /** The actor is busy, has work or a wakeup to come, or is past serving leases. */
  predicate SelfTracked(a: Actor) {
    || a.mailbox != [] || a.count > 0 || a.notifying > 0 || a.permit
    || !(a.phase.Connecting? || a.phase.Entering? || a.phase.Select?) || a.link.Failed?
  }

  /** Something keeps the slot of generation `g` from being forgotten while it is idle. */
  ghost predicate Tracked(s: State, p: Peer, g: Generation)
    requires g in s.actors
  {
    || SelfTracked(s.actors[g]) || (s.forwarding.Some? && s.forwarding.value.0 == g)
    || (p, g) in s.table.idle || Idle(p, g) in s.queue
  }

  ghost predicate TrackedOk(s: State) {
    forall p :: p in s.table.connections && s.table.connections[p] in s.actors ==> Tracked(s, p, s.table.connections[p])
  }

  ghost predicate Inv(s: State) {
    ActorsOk(s) && SlotsOk(s) && CountsOk(s) && AnnouncedOk(s) && PlacesOk(s) && TrackedOk(s)
  }

  lemma StartInv(limit: nat)
    ensures Inv(Start(limit))
  {
  }
}
