// The connection pool as a labelled transition system: the pool actor, one actor per generation
// (src/pool.rs:325-475), the callers and their leases, split at every await point.
//
// A label fixes the outcome of its step, so a run is a sequence of labels; any order of enabled
// labels is a run. The `biased` order of the select arms is not used, so the runs include all that
// a scheduler can produce.

module PoolProtocol {
  import opened Wrappers
  import opened PoolTable

  const POOL_CHANNEL_CAPACITY: nat := 256
  const CONNECTION_CHANNEL_CAPACITY: nat := 64

  /** Why a connection actor left its loop. */
  datatype Cause = Remote | Expired | Drained

  /** Where a connection actor is. `Entering` has its connect behind it and has yet to load the shutdown
      flag; `Select` is the select, from just before the actor begins to wait for the shutdown; a `Report`
      phase is a pending send to the pool; `AnswerStale` owes a caller the answer that follows such a
      send. */
  datatype Phase =
    | Connecting
    | ReportFailure
    | Entering
    | Select
    | ReportClosed
    | ReportStale(req: RequestId)
    | AnswerStale(req: RequestId)
    | ReportIdle
    | ReportExpired
    | Breaking(cause: Cause)
    | Stopped(cause: Cause)

  datatype Link = Pending | Up | Failed(error: PoolError)

  /** `count` and `permit` are the lease counter and the stored notification; `notifying` counts
      drops that brought the counter to zero and have not yet notified. */
  datatype Actor = Actor(
    id: Peer,
    phase: Phase,
    link: Link,
    remoteClosed: bool,
    mailbox: seq<RequestId>,
    count: nat,
    notifying: nat,
    permit: bool,
    issued: bool,
    idleActive: bool,
    shutdownPending: bool)

  datatype Answer = Lease(generation: Generation) | Refusal(error: PoolError)

  /** What has become of a request. */
  datatype Place =
    | Queued
    | Forwarding(generation: Generation)
    | Mailed(generation: Generation)
    | Held(generation: Generation)
    | Answered(answer: Answer)
    | Dropped

  /** `running` is the pool loop, `closed` the shutdown flag, `notified` says that those waiting for it have
      been notified, once and for all, and `woken` are the actors that were waiting and have yet to act on
      it. `leases` names each outstanding lease by the request that obtained it; `places` is the history of
      every request. */
  datatype State = State(
    limit: nat,
    closed: bool,
    notified: bool,
    woken: set<Generation>,
    running: bool,
    queue: seq<Msg>,
    table: Table,
    forwarding: Option<(Generation, RequestId)>,
    actors: map<Generation, Actor>,
    leases: map<RequestId, Generation>,
    places: map<RequestId, Place>)

  datatype Label =
    | SendRequest(r: RequestId, p: Peer)
    | Invalidate(r: RequestId)
    | DropLease(r: RequestId)
    | NotifyOne(g: Generation)
    | ClosePool
    | NotifyWaiters(waiting: set<Generation>)
    | ConnectUp(g: Generation)
    | ConnectFailed(g: Generation, error: PoolError)
    | Enter(g: Generation)
    | RemoteClose(g: Generation)
    | Report(g: Generation)
    | SeeShutdown(g: Generation)
    | SeeClosed(g: Generation)
    | Receive(g: Generation)
    | Wake(g: Generation)
    | Expire(g: Generation)
    | AnswerClosed(g: Generation)
    | Stop(g: Generation)
    | Handle
    | Forward
    | PoolStop
    | PoolDrop

  function Start(limit: nat): State {
    State(limit, false, false, {}, true, [], Table(map[], [], 1), None, map[], map[], map[])
  }

  function NewActor(id: Peer): Actor {
    Actor(id, Connecting, Pending, false, [], 0, 0, false, false, false, false)
  }

  predicate Reporting(phase: Phase) {
    phase.ReportFailure? || phase.ReportClosed? || phase.ReportStale? || phase.ReportIdle? || phase.ReportExpired?
  }

  // ---------------------------------------------------------------------------
  // Steps of one actor, of its leases and of its connection
  // ---------------------------------------------------------------------------

  /** The step concerns one actor (all others belong to the pool actor, a caller or the shutdown flag). */
  predicate Local(l: Label) {
    || l.DropLease? || l.NotifyOne? || l.ConnectUp? || l.ConnectFailed? || l.Enter? || l.RemoteClose?
    || l.Report? || l.SeeShutdown? || l.SeeClosed? || l.Receive? || l.Wake? || l.Expire? || l.AnswerClosed? || l.Stop?
  }

  predicate ActorEnabled(a: Actor, l: Label, closed: bool)
    requires Local(l)
  {
    match l
    case DropLease(_) => a.count > 0
    case NotifyOne(_) => a.notifying > 0
    case ConnectUp(_) => a.phase.Connecting?
    case ConnectFailed(_, e) => a.phase.Connecting? && (e == Timeout || e == ConnectError)
    case Enter(_) => a.phase.Entering?
    case RemoteClose(_) => a.link.Up?
    case Report(_) => Reporting(a.phase)
    case SeeShutdown(_) => a.phase.Select? && closed && !a.shutdownPending
    case SeeClosed(_) => a.phase.Select? && a.link.Up? && a.remoteClosed
    case Receive(_) => a.phase.Select? && a.mailbox != []
    case Wake(_) => a.phase.Select? && a.link.Up? && a.permit
    case Expire(_) => a.phase.Select? && a.idleActive
    case AnswerClosed(_) => a.phase.AnswerStale?
    case Stop(_) => a.phase.Breaking?
  }

  /** The actor once its send to the pool has returned. */
  function AfterReport(a: Actor): (b: Actor)
    requires Reporting(a.phase)
    ensures b.id == a.id && b.mailbox == a.mailbox && b.count == a.count
    ensures b.link == a.link && b.remoteClosed == a.remoteClosed
  {
    match a.phase
    case ReportFailure => a.(phase := Entering)
    case ReportClosed => a.(phase := Breaking(Remote))
    case ReportStale(r) => a.(phase := AnswerStale(r))
    case ReportIdle => a.(phase := Select, idleActive := true)
    case ReportExpired => a.(phase := Breaking(Expired))
  }

  function AfterReceive(a: Actor): (b: Actor)
    requires a.mailbox != []
    ensures b.id == a.id && b.mailbox == a.mailbox[1..]
  {
    var b := a.(mailbox := a.mailbox[1..]);
    if !a.link.Up? then b
    else if a.remoteClosed then b.(phase := ReportStale(a.mailbox[0]))
    else b.(count := a.count + 1, issued := true, idleActive := false)
  }

  function AfterWake(a: Actor): (b: Actor)
    ensures b.id == a.id && b.mailbox == a.mailbox && b.count == a.count
    ensures b.link == a.link && b.remoteClosed == a.remoteClosed
  {
    if a.count > 0 then a.(permit := false)
    else if a.shutdownPending then a.(permit := false, phase := Breaking(Drained))
    else a.(permit := false, phase := ReportIdle)
  }

  function ActorNext(a: Actor, l: Label, closed: bool): Actor
    requires Local(l) && ActorEnabled(a, l, closed)
  {
    match l
    case DropLease(_) => a.(count := a.count - 1, notifying := if a.count == 1 then a.notifying + 1 else a.notifying)
    case NotifyOne(_) => a.(notifying := a.notifying - 1, permit := true)
    case ConnectUp(_) => a.(phase := Entering, link := Up)
    case ConnectFailed(_, e) => a.(phase := ReportFailure, link := Failed(e))
    case Enter(_) => a.(phase := Select, shutdownPending := closed)
    case RemoteClose(_) => a.(remoteClosed := true)
    case Report(_) => AfterReport(a)
    case SeeShutdown(_) => a.(shutdownPending := true, phase := if a.count == 0 then Breaking(Drained) else Select)
    case SeeClosed(_) => a.(phase := ReportClosed)
    case Receive(_) => AfterReceive(a)
    case Wake(_) => AfterWake(a)
    case Expire(_) => a.(phase := ReportExpired)
    case AnswerClosed(_) => a.(phase := Breaking(Remote))
    case Stop(_) => a.(phase := Stopped(a.phase.cause), mailbox := [])
  }

  function Target(s: State, l: Label): Generation
    requires Local(l) && (l.DropLease? ==> l.r in s.leases)
  {
    if l.DropLease? then s.leases[l.r] else l.g
  }

  /** The message a reporting actor is sending. */
  function Reported(a: Actor, g: Generation): Msg {
    if a.phase.ReportIdle? then Idle(a.id, g) else Shutdown(a.id, g)
  }

  /** What a request taken from the mailbox of `a` becomes. */
  function ReceivedPlace(a: Actor, g: Generation): Place {
    match a.link
    case Failed(error) => Answered(Refusal(error))
    case Pending => Answered(Refusal(PoolShutdown))
    case Up => if a.remoteClosed then Held(g) else Answered(Lease(g))
  }

  function DropAll(places: map<RequestId, Place>, gone: seq<RequestId>): map<RequestId, Place> {
    map r | r in places :: if r in gone then Dropped else places[r]
  }

  predicate LocalEnabled(s: State, l: Label)
    requires Local(l)
  {
    && (l.DropLease? ==> l.r in s.leases)
    && Target(s, l) in s.actors
    && ActorEnabled(s.actors[Target(s, l)], l, s.closed)
    && (l.SeeShutdown? ==> l.g in s.woken)
    && (l.Report? && s.running ==> |s.queue| < POOL_CHANNEL_CAPACITY)
  }

  /** The step completes an arm of the select, and with it the actor's wait for the shutdown. */
  predicate CompletesSelect(l: Label) {
    l.SeeShutdown? || l.SeeClosed? || l.Receive? || l.Wake? || l.Expire?
  }

  function ApplyLocal(s: State, l: Label): State
    requires Local(l) && LocalEnabled(s, l)
  {
    var g := Target(s, l);
    var a := s.actors[g];
    s.(actors := s.actors[g := ActorNext(a, l, s.closed)],
       woken := if CompletesSelect(l) then s.woken - {g} else s.woken,
       queue := if l.Report? && s.running then s.queue + [Reported(a, g)] else s.queue,
       leases := if l.DropLease? then s.leases - {l.r}
                 else if l.Receive? && ReceivedPlace(a, g) == Answered(Lease(g)) then s.leases[a.mailbox[0] := g]
                 else s.leases,
       places := if l.Receive? then s.places[a.mailbox[0] := ReceivedPlace(a, g)]
                 else if l.AnswerClosed? then s.places[a.phase.req := Answered(Refusal(ClosedBeforeReuse))]
                 else if l.Stop? then DropAll(s.places, a.mailbox)
                 else s.places)
  }

  // ---------------------------------------------------------------------------
  // Steps of the pool actor
  // ---------------------------------------------------------------------------

  function QueuedRequests(queue: seq<Msg>): set<RequestId> {
    set i | 0 <= i < |queue| && queue[i].Request? :: queue[i].req
  }

  function MailOutcome(a: Actor): SendOutcome {
    if a.phase.Stopped? then MailboxClosed
    else if |a.mailbox| >= CONNECTION_CHANNEL_CAPACITY then MailboxFull
    else Accepted
  }

  function SlotOutcome(s: State, id: Peer): SendOutcome {
    if id in s.table.connections && s.table.connections[id] in s.actors
    then MailOutcome(s.actors[s.table.connections[id]])
    else MailboxClosed
  }

  function DropQueued(places: map<RequestId, Place>, gone: set<RequestId>): map<RequestId, Place> {
    map r | r in places :: if r in gone then Dropped else places[r]
  }

  function EffectActors(actors: map<Generation, Actor>, e: Effect): map<Generation, Actor> {
    match e
    case Forwarded(r, g) =>
      if g in actors then actors[g := actors[g].(mailbox := actors[g].mailbox + [r])] else actors
    case Spawned(_, id, g) => actors[g := NewActor(id)]
    case _ => actors
  }

  function EffectPlaces(places: map<RequestId, Place>, e: Effect): map<RequestId, Place> {
    match e
    case Nothing => places
    case Forwarded(r, g) => places[r := Mailed(g)]
    case Replied(r, error) => places[r := Answered(Refusal(error))]
    case Spawned(r, _, g) => places[r := Forwarding(g)]
  }

  function ApplyHandle(s: State): State
    requires s.queue != []
  {
    var (table, e) := HandleMsg(s.table, s.limit, s.queue[0], SlotOutcome(s, s.queue[0].id));
    s.(queue := s.queue[1..],
       table := table,
       forwarding := if e.Spawned? then Some((e.generation, e.req)) else s.forwarding,
       actors := EffectActors(s.actors, e),
       places := EffectPlaces(s.places, e))
  }

  function ApplyForward(s: State): State
    requires s.forwarding.Some? && s.forwarding.value.0 in s.actors
  {
    var (g, r) := s.forwarding.value;
    var a := s.actors[g];
    if a.phase.Stopped?
    then s.(forwarding := None, table := RemoveIfMatch(s.table, a.id, g), places := s.places[r := Dropped])
    else s.(forwarding := None,
            actors := s.actors[g := a.(mailbox := a.mailbox + [r])],
            places := s.places[r := Mailed(g)])
  }

  // ---------------------------------------------------------------------------
  // All steps
  // ---------------------------------------------------------------------------

  predicate Enabled(s: State, l: Label) {
    if Local(l) then LocalEnabled(s, l)
    else
      match l
      case SendRequest(r, p) => s.running && |s.queue| < POOL_CHANNEL_CAPACITY && r !in s.places
      case Invalidate(r) =>
        s.running && |s.queue| < POOL_CHANNEL_CAPACITY && r in s.leases && s.leases[r] in s.actors
      case ClosePool => true
      case NotifyWaiters(waiting) =>
        s.closed && !s.notified && forall g :: g in waiting ==> g in s.actors && s.actors[g].phase.Select?
      case Handle => s.running && s.forwarding.None? && s.queue != []
      case Forward => s.forwarding.Some? && s.forwarding.value.0 in s.actors
      case PoolStop => s.running && s.closed && s.forwarding.None?
      case PoolDrop => !s.running && forall g :: g in s.actors ==> s.actors[g].phase.Stopped?
  }

  function Apply(s: State, l: Label): State
    requires Enabled(s, l)
  {
    if Local(l) then ApplyLocal(s, l)
    else
      match l
      case SendRequest(r, p) => s.(queue := s.queue + [Request(r, p)], places := s.places[r := Queued])
      case Invalidate(r) => s.(queue := s.queue + [Shutdown(s.actors[s.leases[r]].id, s.leases[r])])
      case ClosePool => s.(closed := true)
      case NotifyWaiters(waiting) => s.(notified := true, woken := waiting)
      case Handle => ApplyHandle(s)
      case Forward => ApplyForward(s)
      case PoolStop => s.(running := false, table := s.table.(connections := map[], idle := []))
      case PoolDrop => s.(queue := [], places := DropQueued(s.places, QueuedRequests(s.queue)))
  }

  ghost predicate Step(s: State, l: Label, s': State) {
    Enabled(s, l) && s' == Apply(s, l)
  }

  /** A run from an empty pool: `trace[i]` becomes `trace[i + 1]` by `labels[i]`. */
  ghost predicate Run(trace: seq<State>, labels: seq<Label>) {
    && |trace| == |labels| + 1
    && trace[0] == Start(trace[0].limit)
    && forall i :: 0 <= i < |labels| ==> Step(trace[i], labels[i], trace[i + 1])
  }
}
