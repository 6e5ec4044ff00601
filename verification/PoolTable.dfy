// The pool actor's own data (src/pool.rs:487-615): the slot table, the idle list and the
// generation counter, first as a value with the transition function of one message, then as
// the class that updates its fields in place.

module PoolTable {
  type Peer = nat
  type Generation = nat
  type RequestId = nat

  datatype PoolError = PoolShutdown | Timeout | TooManyConnections | Busy | ClosedBeforeReuse | ConnectError

  /** A message to the pool actor. A request is named by the reply channel it carries. */
  datatype Msg =
    | Request(req: RequestId, id: Peer)
    | Idle(id: Peer, generation: Generation)
    | Shutdown(id: Peer, generation: Generation)

  /** What `try_send` on a slot's mailbox reports. */
  datatype SendOutcome = Accepted | MailboxFull | MailboxClosed

  /** What handling one message does outside the table. */
  datatype Effect =
    | Nothing
    | Forwarded(req: RequestId, generation: Generation)
    | Replied(req: RequestId, error: PoolError)
    | Spawned(req: RequestId, id: Peer, generation: Generation)

  datatype Table = Table(connections: map<Peer, Generation>, idle: seq<(Peer, Generation)>, next: Generation)

  predicate Matches(t: Table, id: Peer, generation: Generation) {
    id in t.connections && t.connections[id] == generation
  }

  function Without(idle: seq<(Peer, Generation)>, id: Peer): (r: seq<(Peer, Generation)>)
    ensures forall e :: e in r <==> e in idle && e.0 != id
    ensures |r| <= |idle|
  {
    if idle == [] then []
    else if idle[0].0 == id then Without(idle[1..], id)
    else [idle[0]] + Without(idle[1..], id)
  }

  /** The table without any trace of a peer. */
  function Forget(t: Table, id: Peer): Table {
    t.(connections := t.connections - {id}, idle := Without(t.idle, id))
  }

  function RemoveIfMatch(t: Table, id: Peer, generation: Generation): Table {
    if Matches(t, id, generation) then Forget(t, id) else t
  }

  /** Pops the idle list until an entry still names a slot, and frees that slot. */
  function Evict(t: Table): (bool, Table)
    decreases |t.idle|
  {
    if t.idle == [] then (false, t)
    else
      var head := t.idle[0];
      var rest := t.(idle := t.idle[1..]);
      if Matches(rest, head.0, head.1)
      then (true, rest.(connections := rest.connections - {head.0}))
      else Evict(rest)
  }

  function Spawn(t: Table, req: RequestId, id: Peer): (Table, Effect) {
    (t.(connections := t.connections[id := t.next], next := t.next + 1), Spawned(req, id, t.next))
  }

  /** A request for a peer that has no usable slot. */
  function Admit(t: Table, limit: nat, req: RequestId, id: Peer): (Table, Effect) {
    if |t.connections| < limit then Spawn(t, req, id)
    else
      var (freed, t') := Evict(t);
      if freed then Spawn(t', req, id) else (t', Replied(req, TooManyConnections))
  }

  /** One message; `outcome` is what `try_send` on the peer's current slot would report. */
  function HandleMsg(t: Table, limit: nat, msg: Msg, outcome: SendOutcome): (Table, Effect) {
    match msg
    case Request(req, id) =>
      var t1 := t.(idle := Without(t.idle, id));
      if id in t1.connections then
        match outcome
        case Accepted => (t1, Forwarded(req, t1.connections[id]))
        case MailboxFull => (t1, Replied(req, Busy))
        case MailboxClosed => Admit(Forget(t, id), limit, req, id)
      else Admit(t1, limit, req, id)
    case Idle(id, generation) =>
      (if Matches(t, id, generation) then t.(idle := Without(t.idle, id) + [(id, generation)]) else t, Nothing)
    case Shutdown(id, generation) => (RemoveIfMatch(t, id, generation), Nothing)
  }

  // ---------------------------------------------------------------------------
  // What every message keeps
  // ---------------------------------------------------------------------------

  ghost predicate DistinctIds(idle: seq<(Peer, Generation)>) {
    forall i, j :: 0 <= i < j < |idle| ==> idle[i].0 != idle[j].0
  }

  /** At most `limit` slots, generations distinct and already issued, and an idle list whose ids
      are distinct and whose entries all name current slots. */
  ghost predicate TableInv(t: Table, limit: nat) {
    && |t.connections| <= limit
    && (forall p :: p in t.connections ==> t.connections[p] < t.next)
    && (forall p, q :: p in t.connections && q in t.connections && p != q ==> t.connections[p] != t.connections[q])
    && DistinctIds(t.idle)
    && (forall e :: e in t.idle ==> Matches(t, e.0, e.1))
  }

  lemma GrownSize(m: map<Peer, Generation>, id: Peer, g: Generation)
    requires id !in m
    ensures |m[id := g]| == |m| + 1
  {
    assert m[id := g].Keys == m.Keys + {id};
    assert |m[id := g]| == |m[id := g].Keys| && |m| == |m.Keys|;
  }

  lemma ShrunkSize(m: map<Peer, Generation>, id: Peer)
    ensures |m - {id}| == if id in m then |m| - 1 else |m|
    ensures id !in m ==> m - {id} == m
  {
    assert (m - {id}).Keys == m.Keys - {id};
    assert |m - {id}| == |(m - {id}).Keys| && |m| == |m.Keys|;
  }

  lemma {:induction false} WithoutKeepsDistinct(idle: seq<(Peer, Generation)>, id: Peer)
    requires DistinctIds(idle)
    ensures DistinctIds(Without(idle, id))
  {
    if idle != [] {
      WithoutKeepsDistinct(idle[1..], id);
      if idle[0].0 != id {
        var rest := Without(idle[1..], id);
        forall j | 0 <= j < |rest| ensures rest[j].0 != idle[0].0 {
          assert rest[j] in idle[1..];
        }
      }
    }
  }

  /** Eviction succeeds exactly when the idle list is non-empty, always on the first pop. */
  lemma EvictTakesOldest(t: Table, limit: nat)
    requires TableInv(t, limit)
    ensures Evict(t) == if t.idle == [] then (false, t)
                        else (true, t.(connections := t.connections - {t.idle[0].0}, idle := t.idle[1..]))
  {
    if t.idle != [] {
      assert t.idle[0] in t.idle;
    }
  }

  lemma EvictKeepsTable(t: Table, limit: nat)
    requires TableInv(t, limit)
    ensures TableInv(Evict(t).1, limit)
    ensures Evict(t).0 ==> |Evict(t).1.connections| < |t.connections|
    ensures Evict(t).1.next == t.next && Evict(t).1.connections.Keys <= t.connections.Keys
    ensures forall p :: p in Evict(t).1.connections ==> Evict(t).1.connections[p] == t.connections[p]
  {
    EvictTakesOldest(t, limit);
    if t.idle != [] {
      var id := t.idle[0].0;
      assert id in t.connections by { assert t.idle[0] in t.idle; }
      ShrunkSize(t.connections, id);
      forall e | e in t.idle[1..] ensures e in t.idle && e.0 != id {
        var i :| 0 <= i < |t.idle| - 1 && t.idle[1..][i] == e;
        assert t.idle[i + 1] == e;
      }
    }
  }

  lemma SpawnKeepsTable(t: Table, limit: nat, req: RequestId, id: Peer)
    requires TableInv(t, limit) && |t.connections| < limit && id !in t.connections
    ensures TableInv(Spawn(t, req, id).0, limit)
  {
    GrownSize(t.connections, id, t.next);
  }

  lemma AdmitKeepsTable(t: Table, limit: nat, req: RequestId, id: Peer)
    requires TableInv(t, limit) && id !in t.connections
    ensures TableInv(Admit(t, limit, req, id).0, limit)
  {
    if |t.connections| < limit {
      SpawnKeepsTable(t, limit, req, id);
    } else {
      EvictKeepsTable(t, limit);
      if Evict(t).0 {
        SpawnKeepsTable(Evict(t).1, limit, req, id);
      }
    }
  }

  lemma ForgetKeepsTable(t: Table, limit: nat, id: Peer)
    requires TableInv(t, limit)
    ensures TableInv(Forget(t, id), limit)
    ensures id in t.connections ==> |Forget(t, id).connections| < |t.connections|
    ensures id !in t.connections ==> Forget(t, id).connections == t.connections
  {
    hide Without, DistinctIds;
    WithoutKeepsDistinct(t.idle, id);
    ForgottenSize(t, id);
    var f := Forget(t, id);
    forall e | e in f.idle ensures Matches(f, e.0, e.1) {
      assert e in t.idle && e.0 != id;
    }
  }

  lemma ForgottenSize(t: Table, id: Peer)
    ensures |Forget(t, id).connections| == if id in t.connections then |t.connections| - 1 else |t.connections|
    ensures id !in t.connections ==> Forget(t, id).connections == t.connections
  {
    ShrunkSize(t.connections, id);
  }

  lemma NotIdleKeepsTable(t: Table, limit: nat, id: Peer)
    requires TableInv(t, limit)
    ensures TableInv(t.(idle := Without(t.idle, id)), limit)
  {
    WithoutKeepsDistinct(t.idle, id);
  }

  lemma MarkIdleKeepsTable(t: Table, limit: nat, id: Peer, generation: Generation)
    requires TableInv(t, limit) && Matches(t, id, generation)
    ensures TableInv(t.(idle := Without(t.idle, id) + [(id, generation)]), limit)
  {
    WithoutKeepsDistinct(t.idle, id);
    var rest := Without(t.idle, id);
    forall i | 0 <= i < |rest| ensures rest[i].0 != id {
      assert rest[i] in rest;
    }
  }

  /** The table invariant survives every message, whatever the mailbox reports. */
  lemma HandleKeepsTable(t: Table, limit: nat, msg: Msg, outcome: SendOutcome)
    requires TableInv(t, limit)
    ensures TableInv(HandleMsg(t, limit, msg, outcome).0, limit)
  {
    match msg
    case Request(req, id) => RequestKeepsTable(t, limit, req, id, outcome);
    case Idle(id, generation) =>
      if Matches(t, id, generation) {
        MarkIdleKeepsTable(t, limit, id, generation);
      }
    case Shutdown(id, generation) => ForgetKeepsTable(t, limit, id);
  }

  lemma RequestKeepsTable(t: Table, limit: nat, req: RequestId, id: Peer, outcome: SendOutcome)
    requires TableInv(t, limit)
    ensures TableInv(HandleMsg(t, limit, Request(req, id), outcome).0, limit)
  {
    if id in t.connections && !outcome.MailboxClosed? {
      NotIdleKeepsTable(t, limit, id);
    } else {
      ForgetKeepsTable(t, limit, id);
      AdmitKeepsTable(Forget(t, id), limit, req, id);
    }
  }

  lemma AdmitFrame(t: Table, limit: nat, req: RequestId, id: Peer)
    requires TableInv(t, limit) && id !in t.connections
    ensures var (t', e) := Admit(t, limit, req, id);
            && (e == Spawned(req, id, t.next) || e == Replied(req, TooManyConnections))
            && t'.next == (if e.Spawned? then t.next + 1 else t.next)
            && (e.Spawned? ==> Matches(t', id, t.next))
            && (forall p :: p in t'.connections && p != id ==> Matches(t, p, t'.connections[p]))
            && (e.Replied? ==> id !in t'.connections)
  {
    EvictKeepsTable(t, limit);
  }

  /** Every slot after the message was there before with the same generation, or was just spawned. */
  ghost predicate OldOrSpawned(t: Table, t': Table, e: Effect) {
    forall p :: p in t'.connections ==> Matches(t, p, t'.connections[p]) || (e.Spawned? && p == e.id)
  }

  ghost predicate EffectFits(t: Table, t': Table, msg: Msg, outcome: SendOutcome, e: Effect) {
    match e
    case Nothing => !msg.Request?
    case Forwarded(req, g) =>
      msg.Request? && req == msg.req && outcome.Accepted? && Matches(t, msg.id, g)
          && t' == t.(idle := Without(t.idle, msg.id))
    case Replied(req, error) => msg.Request? && req == msg.req && (error == Busy || error == TooManyConnections)
    case Spawned(req, id, g) => msg == Request(req, id) && g == t.next && Matches(t', id, g)
  }

  /** How far one message can move the slots: at most one new slot, always with a fresh generation
      and only together with a spawned actor; every other slot that remains is unchanged. */
  lemma HandleFrame(t: Table, limit: nat, msg: Msg, outcome: SendOutcome)
    requires TableInv(t, limit)
    ensures var (t', e) := HandleMsg(t, limit, msg, outcome);
            && OldOrSpawned(t, t', e)
            && EffectFits(t, t', msg, outcome, e)
            && t'.next == if e.Spawned? then t.next + 1 else t.next
  {
    if msg.Request? && (msg.id !in t.connections || outcome.MailboxClosed?) {
      ForgetKeepsTable(t, limit, msg.id);
      var f := Forget(t, msg.id);
      AdmitFrame(f, limit, msg.req, msg.id);
      assert HandleMsg(t, limit, msg, outcome) == Admit(f, limit, msg.req, msg.id);
      forall p | p in Admit(f, limit, msg.req, msg.id).0.connections && p != msg.id
        ensures Matches(t, p, Admit(f, limit, msg.req, msg.id).0.connections[p])
      {
        assert Matches(f, p, Admit(f, limit, msg.req, msg.id).0.connections[p]);
      }
    }
  }

  /** An idle slot stays on the idle list as long as it stays in the table and is not asked for. */
  lemma HandleKeepsIdle(t: Table, limit: nat, msg: Msg, outcome: SendOutcome, e: (Peer, Generation))
    requires TableInv(t, limit) && e in t.idle && (msg.Request? ==> e.0 != msg.id)
    requires Matches(HandleMsg(t, limit, msg, outcome).0, e.0, e.1)
    ensures e in HandleMsg(t, limit, msg, outcome).0.idle
  {
    if msg.Request? && (msg.id !in t.connections || outcome.MailboxClosed?) {
      ForgetKeepsTable(t, limit, msg.id);
      assert HandleMsg(t, limit, msg, outcome) == Admit(Forget(t, msg.id), limit, msg.req, msg.id);
      AdmitKeepsIdle(Forget(t, msg.id), limit, msg.req, msg.id, e);
    }
  }

  lemma AdmitKeepsIdle(t: Table, limit: nat, req: RequestId, id: Peer, e: (Peer, Generation))
    requires TableInv(t, limit) && e in t.idle && e.0 != id
    requires Matches(Admit(t, limit, req, id).0, e.0, e.1)
    ensures e in Admit(t, limit, req, id).0.idle
  {
    EvictTakesOldest(t, limit);
    var i :| 0 <= i < |t.idle| && t.idle[i] == e;
    assert i > 0 ==> t.idle[1..][i - 1] == e;
  }

  /** A message about a generation that no slot of its peer has any more changes nothing. */
  lemma StaleMessageIsIgnored(t: Table, limit: nat, msg: Msg, outcome: SendOutcome)
    requires !msg.Request? && !Matches(t, msg.id, msg.generation)
    ensures HandleMsg(t, limit, msg, outcome) == (t, Nothing)
  {
  }

  /** TooManyConnections is answered exactly when the peer has no slot, the table is full and
      nothing is idle. */
  lemma RefusedMeansFullAndNothingIdle(t: Table, limit: nat, req: RequestId, id: Peer, outcome: SendOutcome)
    requires TableInv(t, limit)
    ensures HandleMsg(t, limit, Request(req, id), outcome).1 == Replied(req, TooManyConnections)
       <==> id !in t.connections && |t.connections| == limit && t.idle == []
  {
    ForgetKeepsTable(t, limit, id);
    EvictTakesOldest(Forget(t, id), limit);
    if id !in t.connections && t.idle != [] {
      assert t.idle[0] in t.idle;
      assert t.idle[0] in Without(t.idle, id);
    }
  }

  /** A message spawns a connection actor exactly when it is a request for a peer whose slot has a closed
      mailbox, or for a peer without slot that finds room or something idle to evict. */
  lemma SpawnsExactlyWhen(t: Table, limit: nat, msg: Msg, outcome: SendOutcome)
    requires TableInv(t, limit)
    ensures HandleMsg(t, limit, msg, outcome).1.Spawned? <==>
              && msg.Request?
              && if msg.id in t.connections then outcome.MailboxClosed? else |t.connections| < limit || t.idle != []
  {
    if msg.Request? {
      ForgetKeepsTable(t, limit, msg.id);
      RefusedMeansFullAndNothingIdle(t, limit, msg.req, msg.id, outcome);
    }
  }

  /** A slot is lost exactly when its own shutdown is handled, when its peer is asked for and its mailbox
      is closed, or when a request for a peer without a slot finds the table full and it is the oldest
      idle one. */
  lemma SlotLostExactlyWhen(t: Table, limit: nat, msg: Msg, outcome: SendOutcome, p: Peer, g: Generation)
    requires TableInv(t, limit) && Matches(t, p, g)
    ensures !Matches(HandleMsg(t, limit, msg, outcome).0, p, g) <==>
              || msg == Shutdown(p, g)
              || (msg.Request? && msg.id == p && outcome.MailboxClosed?)
              || (msg.Request? && msg.id !in t.connections && |t.connections| == limit && t.idle != []
                   && t.idle[0] == (p, g))
  {
    if msg.Request? && msg.id !in t.connections {
      WithoutAbsent(t.idle, msg.id);
      AdmitLosesOldest(t, limit, msg.req, msg.id, p, g);
    } else if msg.Request? && outcome.MailboxClosed? {
      ForgetKeepsTable(t, limit, msg.id);
    }
  }

  lemma AdmitLosesOldest(t: Table, limit: nat, req: RequestId, id: Peer, p: Peer, g: Generation)
    requires TableInv(t, limit) && Matches(t, p, g) && id !in t.connections
    ensures !Matches(Admit(t, limit, req, id).0, p, g)
            <==> |t.connections| == limit && t.idle != [] && t.idle[0] == (p, g)
  {
    EvictTakesOldest(t, limit);
    if t.idle != [] {
      assert t.idle[0] in t.idle;
    }
  }

  lemma {:induction false} WithoutAbsent(idle: seq<(Peer, Generation)>, id: Peer)
    requires forall e :: e in idle ==> e.0 != id
    ensures Without(idle, id) == idle
  {
    if idle != [] {
      assert idle[0] in idle;
      WithoutAbsent(idle[1..], id);
    }
  }

  // ---------------------------------------------------------------------------
  // First idle, first evicted
  // ---------------------------------------------------------------------------

  ghost predicate Earlier(idle: seq<(Peer, Generation)>, a: (Peer, Generation), b: (Peer, Generation)) {
    exists i, j :: 0 <= i < j < |idle| && idle[i] == a && idle[j] == b
  }

  lemma {:induction false} WithoutKeepsOrder(idle: seq<(Peer, Generation)>, id: Peer,
                                           a: (Peer, Generation), b: (Peer, Generation))
    requires Earlier(idle, a, b) && a.0 != id && b.0 != id
    ensures Earlier(Without(idle, id), a, b)
  {
    hide Earlier;
    EarlierInTail(idle, a, b);
    var rest := Without(idle[1..], id);
    if Earlier(idle[1..], a, b) {
      WithoutKeepsOrder(idle[1..], id, a, b);
      if idle[0].0 != id {
        EarlierBehind(idle[0], rest, a, b);
      }
    } else {
      EarlierThanRest(a, rest, b);
    }
  }

  lemma EarlierInTail(idle: seq<(Peer, Generation)>, a: (Peer, Generation), b: (Peer, Generation))
    requires Earlier(idle, a, b)
    ensures idle != [] && (Earlier(idle[1..], a, b) || (idle[0] == a && b in idle[1..]))
  {
    var i, j :| 0 <= i < j < |idle| && idle[i] == a && idle[j] == b;
    assert idle[1..][j - 1] == b && (i > 0 ==> idle[1..][i - 1] == a);
  }

  lemma EarlierBehind(head: (Peer, Generation), rest: seq<(Peer, Generation)>,
                      a: (Peer, Generation), b: (Peer, Generation))
    requires Earlier(rest, a, b)
    ensures Earlier([head] + rest, a, b)
  {
    var i, j :| 0 <= i < j < |rest| && rest[i] == a && rest[j] == b;
    assert ([head] + rest)[i + 1] == a && ([head] + rest)[j + 1] == b;
  }

  lemma EarlierInFront(front: seq<(Peer, Generation)>, last: (Peer, Generation),
                       a: (Peer, Generation), b: (Peer, Generation))
    requires Earlier(front, a, b)
    ensures Earlier(front + [last], a, b)
  {
    var i, j :| 0 <= i < j < |front| && front[i] == a && front[j] == b;
    assert (front + [last])[i] == a && (front + [last])[j] == b;
  }

  lemma EarlierThanRest(a: (Peer, Generation), rest: seq<(Peer, Generation)>, b: (Peer, Generation))
    requires b in rest
    ensures Earlier([a] + rest, a, b)
  {
    var j :| 0 <= j < |rest| && rest[j] == b;
    assert ([a] + rest)[0] == a && ([a] + rest)[j + 1] == b;
  }

  /** A connection marked idle goes to the end of the list. */
  lemma MarkedIdleIsLast(t: Table, limit: nat, id: Peer, generation: Generation, outcome: SendOutcome)
    requires TableInv(t, limit) && Matches(t, id, generation)
    ensures var idle := HandleMsg(t, limit, Idle(id, generation), outcome).0.idle;
            && idle != [] && idle[|idle| - 1] == (id, generation)
            && forall e :: e in t.idle && e.0 != id ==> Earlier(idle, e, (id, generation))
  {
    var rest := Without(t.idle, id);
    var idle := rest + [(id, generation)];
    forall e | e in t.idle && e.0 != id ensures Earlier(idle, e, (id, generation)) {
      var i :| 0 <= i < |rest| && rest[i] == e;
      assert idle[i] == e && idle[|rest|] == (id, generation);
    }
  }

  /** And no message lets it overtake: of two connections that stay idle, the one idle for longer stays
      ahead, so it is evicted first. */
  lemma IdleOrderStays(t: Table, limit: nat, msg: Msg, outcome: SendOutcome,
                       a: (Peer, Generation), b: (Peer, Generation))
    requires TableInv(t, limit) && Earlier(t.idle, a, b) && (msg.Idle? ==> msg.id != a.0 && msg.id != b.0)
    requires a in HandleMsg(t, limit, msg, outcome).0.idle && b in HandleMsg(t, limit, msg, outcome).0.idle
    ensures Earlier(HandleMsg(t, limit, msg, outcome).0.idle, a, b)
  {
    hide TableInv, Without, Earlier, Admit;
    match msg
    case Request(req, id) =>
      if id in t.connections && outcome.MailboxClosed? {
        ForgetKeepsTable(t, limit, id);
        AdmitKeepsOrder(Forget(t, id), limit, req, id, a, b, t.idle);
      } else if id !in t.connections {
        NotIdleKeepsTable(t, limit, id);
        AdmitKeepsOrder(t.(idle := Without(t.idle, id)), limit, req, id, a, b, t.idle);
      } else {
        WithoutKeepsOrder(t.idle, id, a, b);
      }
    case Idle(id, generation) =>
      if Matches(t, id, generation) {
        WithoutKeepsOrder(t.idle, id, a, b);
        EarlierInFront(Without(t.idle, id), (id, generation), a, b);
      }
    case Shutdown(id, generation) =>
      if Matches(t, id, generation) {
        WithoutKeepsOrder(t.idle, id, a, b);
      }
  }

  lemma AdmitKeepsOrder(t: Table, limit: nat, req: RequestId, id: Peer, a: (Peer, Generation), b: (Peer, Generation),
                        before: seq<(Peer, Generation)>)
    requires TableInv(t, limit) && t.idle == Without(before, id) && Earlier(before, a, b)
    requires a in Admit(t, limit, req, id).0.idle && b in Admit(t, limit, req, id).0.idle
    ensures Earlier(Admit(t, limit, req, id).0.idle, a, b)
  {
    hide Without, Earlier, Evict;
    EvictTakesOldest(t, limit);
    assert t.idle != [] ==> forall e :: e in t.idle[1..] ==> e in t.idle;
    WithoutKeepsOrder(before, id, a, b);
    if Admit(t, limit, req, id).0.idle != t.idle {
      EarlierInTail(t.idle, a, b);
      NotTwice(t.idle, a);
    }
  }

  lemma NotTwice(idle: seq<(Peer, Generation)>, a: (Peer, Generation))
    requires DistinctIds(idle) && idle != [] && a in idle[1..]
    ensures idle[0] != a
  {
    var k :| 0 <= k < |idle| - 1 && idle[1..][k] == a;
    assert idle[k + 1] == a;
  }

  // ---------------------------------------------------------------------------
  // The actor object
  // ---------------------------------------------------------------------------

  class PoolActor {
    var connections: map<Peer, Generation>
    var idle: seq<(Peer, Generation)>
    var nextGeneration: Generation
    const maxConnections: nat

    function View(): Table
      reads this
    {
      Table(connections, idle, nextGeneration)
    }

    ghost predicate Valid()
      reads this
    {
      TableInv(View(), maxConnections)
    }

    constructor (maxConnections: nat)
      ensures Valid()
      ensures View() == Table(map[], [], 1) && this.maxConnections == maxConnections
    {
      this.maxConnections := maxConnections;
      connections, idle, nextGeneration := map[], [], 1;
    }

    function MatchesGeneration(id: Peer, generation: Generation): bool
      reads this
    {
      id in connections && connections[id] == generation
    }

    method RemoveIdle(id: Peer)
      modifies this`idle
      ensures idle == Without(old(idle), id)
      ensures forall e :: e in idle <==> e in old(idle) && e.0 != id
      ensures forall a, b :: Earlier(old(idle), a, b) && a.0 != id && b.0 != id ==> Earlier(idle, a, b)
    {
      forall a, b | Earlier(idle, a, b) && a.0 != id && b.0 != id ensures Earlier(Without(idle, id), a, b) {
        WithoutKeepsOrder(idle, id, a, b);
      }
      idle := Without(idle, id);
    }

    method AddIdle(id: Peer, generation: Generation)
      modifies this`idle
      ensures idle == Without(old(idle), id) + [(id, generation)]
    {
      RemoveIdle(id);
      idle := idle + [(id, generation)];
    }

    method RemoveConnectionIfMatch(id: Peer, generation: Generation)
      requires Valid()
      modifies this
      ensures View() == RemoveIfMatch(old(View()), id, generation)
      ensures Valid()
    {
      ForgetKeepsTable(View(), maxConnections, id);
      if MatchesGeneration(id, generation) {
        connections := connections - {id};
        RemoveIdle(id);
      }
    }

    method NextGeneration() returns (generation: Generation)
      modifies this`nextGeneration
      ensures generation == old(nextGeneration) && nextGeneration == generation + 1
      ensures old(Valid()) ==> Valid() && forall p :: p in connections ==> connections[p] < generation
    {
      generation := nextGeneration;
      nextGeneration := nextGeneration + 1;
    }

    method EvictIdleConnection() returns (freed: bool)
      modifies this
      ensures (freed, View()) == Evict(old(View()))
    {
      while idle != []
        invariant Evict(View()) == Evict(old(View()))
        decreases |idle|
      {
        var (id, generation) := idle[0];
        idle := idle[1..];
        if MatchesGeneration(id, generation) {
          connections := connections - {id};
          return true;
        }
      }
      return false;
    }

    /** The part of the request handler for a peer without a usable slot. */
    method SpawnOrRefuse(req: RequestId, id: Peer) returns (effect: Effect)
      modifies this
      ensures (View(), effect) == Admit(old(View()), maxConnections, req, id)
    {
      if |connections| >= maxConnections {
        var freed := EvictIdleConnection();
        if !freed {
          return Replied(req, TooManyConnections);
        }
      }
      var generation := NextGeneration();
      connections := connections[id := generation];
      return Spawned(req, id, generation);
    }

    /** One message up to the only await of the handler: the hand-over of the first request to a
        freshly spawned actor, which `FinishSpawn` completes. */
    method Handle(msg: Msg, outcome: SendOutcome) returns (effect: Effect)
      requires Valid()
      modifies this
      ensures (View(), effect) == HandleMsg(old(View()), maxConnections, msg, outcome)
      ensures Valid()
    {
      hide TableInv, Admit, Without;
      HandleKeepsTable(View(), maxConnections, msg, outcome);
      match msg
      case Request(req, id) =>
        RemoveIdle(id);
        if id in connections {
          match outcome {
            case Accepted => return Forwarded(req, connections[id]);
            case MailboxFull => return Replied(req, Busy);
            case MailboxClosed => connections := connections - {id};
          }
        }
        effect := SpawnOrRefuse(req, id);
      case Idle(id, generation) =>
        if MatchesGeneration(id, generation) {
          AddIdle(id, generation);
        }
        return Nothing;
      case Shutdown(id, generation) =>
        RemoveConnectionIfMatch(id, generation);
        return Nothing;
    }

    /** After the await: a request that could not be delivered takes its slot with it. */
    method FinishSpawn(id: Peer, generation: Generation, delivered: bool)
      requires Valid()
      modifies this
      ensures View() == if delivered then old(View()) else RemoveIfMatch(old(View()), id, generation)
      ensures Valid()
    {
      if !delivered {
        RemoveConnectionIfMatch(id, generation);
      }
    }

    /** The end of the run loop. */
    method Clear()
      modifies this
      ensures View() == old(View()).(connections := map[], idle := [])
      ensures Valid()
    {
      connections := map[];
      idle := [];
    }
  }
}
