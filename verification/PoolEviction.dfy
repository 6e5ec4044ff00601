// `max_connections` is documented as the maximum of concurrent connections (src/pool.rs:61). It bounds
// the slots. A run shows a pool of one slot with two live connections; then come the exact conditions.

module PoolEviction {
  import opened Wrappers
  import opened PoolTable
  import opened PoolProtocol
  import opened PoolInvariant
  import opened PoolSteps
  import opened PoolRuns

  // ---------------------------------------------------------------------------
  // Two live connections in a pool of one
  // ---------------------------------------------------------------------------

  const T2 := Table(map[11 := 2], [], 3)

  function ToEleven(phase: Phase, link: Link, mailbox: seq<RequestId>): map<Generation, Actor> {
    map[1 := Rested, 2 := NewActor(11).(phase := phase, link := link, mailbox := mailbox)]
  }

  /** A request for peer 11 takes the slot of the idle connection, which stays. */
  function Evicting(i: nat): State {
    match i
    case 0 => Idled
    case 1 => S([Request(1, 11)], TIdle, map[1 := Rested], Granted[1 := Queued])
    case 2 => S([], T2, ToEleven(Connecting, Pending, []), Granted[1 := Forwarding(2)]).(forwarding := Some((2, 1)))
    case 3 => S([], T2, ToEleven(Connecting, Pending, [1]), Granted[1 := Mailed(2)])
    case 4 => S([], T2, ToEleven(Entering, Up, [1]), Granted[1 := Mailed(2)])
    case _ => S([], T2, ToEleven(Select, Up, [1]), Granted[1 := Mailed(2)])
  }

  const EVICTING: seq<Label> := [SendRequest(1, 11), Handle, Forward, ConnectUp(2), Enter(2)]

  lemma EvictsTheIdleSlot()
    ensures HandleMsg(TIdle, 1, Request(1, 11), MailboxClosed) == (T2, Spawned(1, 11, 2))
  {
    var t := TIdle;
    assert t.idle[1..] == [];
    assert Without(t.idle, 11) == t.idle;
    assert t.connections.Keys == {10};
    assert |t.connections| == 1;
    assert t.connections - {10} == map[];
  }

  lemma Evicting0() ensures Step(Evicting(0), EVICTING[0], Evicting(1)) {}

  lemma Evicting1()
    ensures Step(Evicting(1), EVICTING[1], Evicting(2))
  {
    HandledToEvicting2(Evicting(1));
  }

  lemma HandledToEvicting2(s: State)
    requires s == S([Request(1, 11)], TIdle, map[1 := Rested], Granted[1 := Queued])
    ensures Enabled(s, Handle) && ApplyHandle(s) == Evicting(2)
  {
    EvictsTheIdleSlot();
    var e := Spawned(1, 11, 2);
    assert s.queue[1..] == [] && SlotOutcome(s, 11) == MailboxClosed;
    assert EffectActors(s.actors, e) == map[1 := Rested, 2 := NewActor(11)];
    assert EffectPlaces(s.places, e) == Granted[1 := Forwarding(2)];
  }

  lemma Evicting2()
    ensures Step(Evicting(2), EVICTING[2], Evicting(3))
  {
    ForwardedToEvicting3(Evicting(2));
  }

  lemma ForwardedToEvicting3(s: State)
    requires s == Evicting(2)
    ensures Enabled(s, Forward) && ApplyForward(s) == Evicting(3)
  {
    assert [] + [1] == [1];
    assert s.actors[2 := s.actors[2].(mailbox := [1])] == ToEleven(Connecting, Pending, [1]);
    assert s.places[1 := Mailed(2)] == Granted[1 := Mailed(2)];
  }

  lemma Evicting3() ensures Step(Evicting(3), EVICTING[3], Evicting(4)) {}
  lemma Evicting4() ensures Step(Evicting(4), EVICTING[4], Evicting(5)) {}

  ghost predicate Live(a: Actor) {
    a.phase.Select? && a.link.Up? && !a.remoteClosed
  }

  /** Two live connections behind a pool of one. */
  lemma LimitDoesNotBoundLiveConnections() returns (trace: seq<State>, labels: seq<Label>)
    ensures Run(trace, labels)
    ensures var s := Last(trace);
            s.limit == 1 && s.actors.Keys == {1, 2} && Live(s.actors[1]) && Live(s.actors[2])
  {
    hide Step;
    var before, sent := RunToIdled();
    var states := seq(6, i requires 0 <= i < 6 => Evicting(i));
    Evicting0();
    Evicting1();
    Evicting2();
    Evicting3();
    Evicting4();
    Continue(before, sent, states, EVICTING);
    trace, labels := before + states[1..], sent + EVICTING;
  }

  // ---------------------------------------------------------------------------
  // Two open connections without an eviction
  // ---------------------------------------------------------------------------

  function Ending(phase: Phase): map<Generation, Actor> {
    map[1 := Rested.(phase := phase)]
  }

  function BesideEleven(phase: Phase, link: Link, mailbox: seq<RequestId>): map<Generation, Actor> {
    Ending(Breaking(Expired))[2 := NewActor(11).(phase := phase, link := link, mailbox := mailbox)]
  }

  const TNone := Table(map[], [], 2)

  /** The idle connection expires and gives up its slot; before it is closed, another is made. */
  function Overlapping(i: nat): State {
    match i
    case 0 => Idled
    case 1 => S([], TIdle, Ending(ReportExpired), Granted)
    case 2 => S([Shutdown(10, 1)], TIdle, Ending(Breaking(Expired)), Granted)
    case 3 => S([], TNone, Ending(Breaking(Expired)), Granted)
    case 4 => S([Request(1, 11)], TNone, Ending(Breaking(Expired)), Granted[1 := Queued])
    case 5 => S([], T2, BesideEleven(Connecting, Pending, []), Granted[1 := Forwarding(2)]).(forwarding := Some((2, 1)))
    case 6 => S([], T2, BesideEleven(Connecting, Pending, [1]), Granted[1 := Mailed(2)])
    case _ => S([], T2, BesideEleven(Entering, Up, [1]), Granted[1 := Mailed(2)])
  }

  const OVERLAPPING: seq<Label> :=
    [Expire(1), Report(1), Handle, SendRequest(1, 11), Handle, Forward, ConnectUp(2)]

  lemma Overlapping0() ensures Step(Overlapping(0), OVERLAPPING[0], Overlapping(1)) {}
  lemma Overlapping1() ensures Step(Overlapping(1), OVERLAPPING[1], Overlapping(2)) {}
  lemma Overlapping2() ensures Step(Overlapping(2), OVERLAPPING[2], Overlapping(3)) {}
  lemma Overlapping3() ensures Step(Overlapping(3), OVERLAPPING[3], Overlapping(4)) {}

  lemma Overlapping4()
    ensures Step(Overlapping(4), OVERLAPPING[4], Overlapping(5))
  {
    HandledToOverlapping5(Overlapping(4));
  }

  lemma HandledToOverlapping5(s: State)
    requires s == Overlapping(4)
    ensures Enabled(s, Handle) && ApplyHandle(s) == Overlapping(5)
  {
    var e := Spawned(1, 11, 2);
    assert s.queue[1..] == [] && SlotOutcome(s, 11) == MailboxClosed;
    assert HandleMsg(TNone, 1, Request(1, 11), MailboxClosed) == (T2, e);
    assert EffectActors(s.actors, e) == BesideEleven(Connecting, Pending, []);
    assert EffectPlaces(s.places, e) == Granted[1 := Forwarding(2)];
  }

  lemma Overlapping5()
    ensures Step(Overlapping(5), OVERLAPPING[5], Overlapping(6))
  {
    ForwardedToOverlapping6(Overlapping(5));
  }

  lemma ForwardedToOverlapping6(s: State)
    requires s == Overlapping(5)
    ensures Enabled(s, Forward) && ApplyForward(s) == Overlapping(6)
  {
    assert [] + [1] == [1];
    assert s.actors[2 := s.actors[2].(mailbox := [1])] == BesideEleven(Connecting, Pending, [1]);
    assert s.places[1 := Mailed(2)] == Granted[1 := Mailed(2)];
  }

  lemma Overlapping6() ensures Step(Overlapping(6), OVERLAPPING[6], Overlapping(7)) {}

  /** The limit is passed without an eviction, by a connection that has yet to be closed. */
  lemma ClosingConnectionStillCounts() returns (trace: seq<State>, labels: seq<Label>)
    ensures Run(trace, labels)
    ensures var s := Last(trace);
            && s.limit == 1 && s.actors.Keys == {1, 2}
            && s.actors[1].link.Up? && s.actors[2].link.Up? && Open(s.actors[1]) && Open(s.actors[2])
  {
    hide Step;
    var before, sent := RunToIdled();
    var states := seq(8, i requires 0 <= i < 8 => Overlapping(i));
    Overlapping0();
    Overlapping1();
    Overlapping2();
    Overlapping3();
    Overlapping4();
    Overlapping5();
    Overlapping6();
    Continue(before, sent, states, OVERLAPPING);
    trace, labels := before + states[1..], sent + OVERLAPPING;
  }

  // ---------------------------------------------------------------------------
  // When the limit holds
  // ---------------------------------------------------------------------------

  /** The actor is connecting, or has a connection that neither side has closed: its own side closes it only
      when it stops. */
  predicate Open(a: Actor) {
    !a.phase.Stopped? && !a.link.Failed? && !a.remoteClosed
  }

  function OpenConnections(s: State): set<Generation> {
    set g | g in s.actors && Open(s.actors[g])
  }

  /** The message at the head of the queue will spawn an actor: it asks for a peer whose slot's actor has
      stopped, or for a peer without slot while the table has room or an idle slot. */
  predicate SpawnsNext(s: State)
    requires s.queue != []
  {
    match s.queue[0]
    case Request(_, id) =>
      if id in s.table.connections
      then s.table.connections[id] in s.actors && s.actors[s.table.connections[id]].phase.Stopped?
      else |s.table.connections| < s.limit || s.table.idle != []
    case _ => false
  }

  /** The step opens one connection too many. */
  predicate Exceeds(s: State, l: Label) {
    l.Handle? && s.queue != [] && SpawnsNext(s) && |OpenConnections(s)| >= s.limit
  }

  lemma SpawnsNextExactly(s: State)
    requires SlotsOk(s) && Enabled(s, Handle)
    ensures SpawnsNext(s) <==> HandleMsg(s.table, s.limit, s.queue[0], SlotOutcome(s, s.queue[0].id)).1.Spawned?
  {
    hide HandleMsg;
    SpawnsExactlyWhen(s.table, s.limit, s.queue[0], SlotOutcome(s, s.queue[0].id));
  }

  lemma HandledOpens(s: State, s': State, e: Effect)
    requires Handled(s, s', e)
    ensures OpenConnections(s') == OpenConnections(s) + if e.Spawned? then {e.generation} else {}
    ensures e.Spawned? ==> e.generation !in OpenConnections(s)
  {
  }

  /** Only the pool actor opens connections; other steps at most end one. */
  lemma OthersOnlyEnd(s: State, l: Label)
    requires Inv(s) && Enabled(s, l) && !l.Handle?
    ensures OpenConnections(Apply(s, l)) <= OpenConnections(s)
  {
    if Local(l) {
      LocalOnlyEnds(s, l);
    } else if l.Forward? {
      ForwardOpensNothing(s);
    }
  }

  lemma OpenShrinks(a: Actor, l: Label, closed: bool)
    requires ActorOk(a) && Local(l) && ActorEnabled(a, l, closed) && Open(ActorNext(a, l, closed))
    ensures Open(a)
  {
  }

  lemma LocalOnlyEnds(s: State, l: Label)
    requires ActorsOk(s) && Local(l) && LocalEnabled(s, l)
    ensures OpenConnections(ApplyLocal(s, l)) <= OpenConnections(s)
  {
    hide ActorNext;
    var g := Target(s, l);
    if Open(ActorNext(s.actors[g], l, s.closed)) {
      OpenShrinks(s.actors[g], l, s.closed);
    }
  }

  lemma ForwardOpensNothing(s: State)
    requires Enabled(s, Forward)
    ensures OpenConnections(ApplyForward(s)) == OpenConnections(s)
  {
  }

  lemma SubsetSize(a: set<Generation>, b: set<Generation>)
    requires a <= b
    ensures |a| <= |b|
  {
    assert b == a + (b - a);
  }

  /** From a state within the limit, exactly these steps lead beyond it. */
  lemma ExceedsExactlyWhen(trace: seq<State>, labels: seq<Label>, i: nat)
    requires Run(trace, labels) && i < |labels| && |OpenConnections(trace[i])| <= trace[i].limit
    ensures |OpenConnections(trace[i + 1])| > trace[i + 1].limit <==> Exceeds(trace[i], labels[i])
  {
    hide Apply, Enabled, Inv, OpenConnections, SpawnsNext;
    RunKeepsInv(trace, labels, i);
    assert Step(trace[i], labels[i], trace[i + 1]);
    StepExceeds(trace[i], labels[i]);
  }

  lemma StepExceeds(s: State, l: Label)
    requires Inv(s) && Enabled(s, l) && |OpenConnections(s)| <= s.limit
    ensures Apply(s, l).limit == s.limit
    ensures |OpenConnections(Apply(s, l))| > s.limit <==> Exceeds(s, l)
  {
    hide ApplyLocal, ActorsOk, SlotsOk, CountsOk, AnnouncedOk, PlacesOk, TrackedOk, OpenConnections, HandleMsg;
    if l.Handle? {
      var e := HandleIsHandled(s);
      HandledOpens(s, ApplyHandle(s), e);
      SpawnsNextExactly(s);
    } else {
      OthersOnlyEnd(s, l);
      SubsetSize(OpenConnections(Apply(s, l)), OpenConnections(s));
      LimitIsConstant(s, l);
    }
  }

  lemma LimitIsConstant(s: State, l: Label)
    requires Enabled(s, l)
    ensures Apply(s, l).limit == s.limit
  {
    hide HandleMsg, ActorNext;
  }

  /** The documented limit holds throughout a run if and only if no step of the run spawns an actor while
      as many connections as the limit allows are open or being opened. */
  lemma LimitHoldsExactlyWhen(trace: seq<State>, labels: seq<Label>)
    requires Run(trace, labels)
    ensures (forall i :: 0 <= i < |trace| ==> |OpenConnections(trace[i])| <= trace[i].limit)
       <==> (forall i :: 0 <= i < |labels| ==> !Exceeds(trace[i], labels[i]))
  {
    hide Exceeds, Step;
    if forall i :: 0 <= i < |trace| ==> |OpenConnections(trace[i])| <= trace[i].limit {
      forall i | 0 <= i < |labels| ensures !Exceeds(trace[i], labels[i]) {
        ExceedsExactlyWhen(trace, labels, i);
      }
    }
    if forall i :: 0 <= i < |labels| ==> !Exceeds(trace[i], labels[i]) {
      forall i | 0 <= i < |trace| ensures |OpenConnections(trace[i])| <= trace[i].limit {
        WithinLimit(trace, labels, i);
      }
    }
  }

  lemma {:induction false} WithinLimit(trace: seq<State>, labels: seq<Label>, i: nat)
    requires Run(trace, labels) && i < |trace| && forall j :: 0 <= j < i ==> !Exceeds(trace[j], labels[j])
    ensures |OpenConnections(trace[i])| <= trace[i].limit
  {
    hide Exceeds, Step;
    if i > 0 {
      WithinLimit(trace, labels, i - 1);
      ExceedsExactlyWhen(trace, labels, i - 1);
    } else {
      assert OpenConnections(trace[0]) == {};
    }
  }

  // ---------------------------------------------------------------------------
  // Actors without a slot
  // ---------------------------------------------------------------------------

  /** The actor has not told the pool that its generation is over, nor ended because of a shutdown. */
  predicate Unannounced(a: Actor) {
    !Announces(a) && a.phase != Breaking(Drained) && a.phase != Stopped(Drained)
  }

  function UnannouncedActors(s: State): set<Generation> {
    set g | g in s.actors && Unannounced(s.actors[g])
  }

  /** Every actor that has not announced its end holds its peer's slot. */
  ghost predicate Accounted(s: State) {
    forall g :: g in s.actors && Unannounced(s.actors[g]) ==> Matches(s.table, s.actors[g].id, g)
  }

  predicate UnannouncedSlot(s: State, p: Peer) {
    p in s.table.connections && s.table.connections[p] in s.actors && Unannounced(s.actors[s.table.connections[p]])
  }

  /** The step takes the slot of an actor that has not announced its end: an eviction, the shutdown that a caller's
      `invalidate` asked for, or the end of the pool. */
  ghost predicate Unslots(s: State, l: Label)
    requires Enabled(s, l)
  {
    match l
    case Handle =>
      (match s.queue[0]
       case Shutdown(p, g) => Matches(s.table, p, g) && UnannouncedSlot(s, p)
       case Request(_, id) =>
         id !in s.table.connections && |s.table.connections| == s.limit && s.table.idle != []
             && UnannouncedSlot(s, s.table.idle[0].0)
       case Idle(_, _) => false)
    case PoolStop => exists p :: p in s.table.connections && UnannouncedSlot(s, p)
    case _ => false
  }

  lemma UnannouncedShrinks(a: Actor, l: Label, closed: bool)
    requires ActorOk(a) && Local(l) && ActorEnabled(a, l, closed) && Unannounced(ActorNext(a, l, closed))
    ensures Unannounced(a) && ActorNext(a, l, closed).id == a.id
  {
  }

  lemma LocalKeepsAccounted(s: State, l: Label)
    requires ActorsOk(s) && Local(l) && LocalEnabled(s, l) && Accounted(s)
    ensures Accounted(ApplyLocal(s, l))
  {
    hide ActorNext, Unannounced, Reported, ReceivedPlace, DropAll;
    var g := Target(s, l);
    if Unannounced(ActorNext(s.actors[g], l, s.closed)) {
      UnannouncedShrinks(s.actors[g], l, s.closed);
    }
  }

  lemma ForwardKeepsAccounted(s: State)
    requires Enabled(s, Forward) && Accounted(s)
    ensures Accounted(ApplyForward(s))
  {
    hide Accounted, Matches, RemoveIfMatch, Unannounced;
    var (g, r) := s.forwarding.value;
    if s.actors[g].phase.Stopped? {
      StoppedLosesSlot(s, ApplyForward(s), g);
    } else {
      MailKeepsAccounted(s, ApplyForward(s), g, s.actors[g].mailbox + [r]);
    }
  }

  lemma StoppedLosesSlot(s: State, s': State, g: Generation)
    requires Accounted(s) && g in s.actors && s.actors[g].phase.Stopped?
    requires s'.actors == s.actors && s'.table == RemoveIfMatch(s.table, s.actors[g].id, g)
    ensures Accounted(s')
  {
  }

  lemma MailKeepsAccounted(s: State, s': State, g: Generation, mailbox: seq<RequestId>)
    requires Accounted(s) && g in s.actors && s'.table == s.table
    requires s'.actors == s.actors[g := s.actors[g].(mailbox := mailbox)]
    ensures Accounted(s')
  {
  }

  /** The message at the head of the queue takes the slot of `p`, held by `g`. */
  predicate TakesSlot(s: State, p: Peer, g: Generation)
    requires s.queue != []
  {
    match s.queue[0]
    case Shutdown(q, h) => (p, g) == (q, h)
    case Request(_, id) =>
      id !in s.table.connections && |s.table.connections| == s.limit && s.table.idle != [] && s.table.idle[0] == (p, g)
    case Idle(_, _) => false
  }

  lemma UnannouncedSlotLost(s: State, g: Generation)
    requires ActorsOk(s) && SlotsOk(s) && Enabled(s, Handle) && g in s.actors && Unannounced(s.actors[g])
    requires Matches(s.table, s.actors[g].id, g)
    ensures Matches(ApplyHandle(s).table, s.actors[g].id, g) <==> !TakesSlot(s, s.actors[g].id, g)
  {
    hide HandleMsg;
    var outcome := SlotOutcome(s, s.queue[0].id);
    SlotLostExactlyWhen(s.table, s.limit, s.queue[0], outcome, s.actors[g].id, g);
    assert ActorOk(s.actors[g]);
    assert !s.actors[g].phase.Stopped?;
  }

  lemma HandledAccounts(s: State, s': State, e: Effect)
    requires SlotsOk(s) && Handled(s, s', e) && Accounted(s)
    requires e.Spawned? ==> Matches(s'.table, e.id, e.generation)
    requires forall g :: g in s.actors && Unannounced(s.actors[g]) ==>
               (Matches(s'.table, s.actors[g].id, g) <==> !TakesSlot(s, s.actors[g].id, g))
    ensures Accounted(s') <==> !(exists p :: UnannouncedSlot(s, p) && TakesSlot(s, p, s.table.connections[p]))
  {
    if p :| UnannouncedSlot(s, p) && TakesSlot(s, p, s.table.connections[p]) {
      var g := s.table.connections[p];
      assert s.actors[g].id == p && g in s'.actors && Unannounced(s'.actors[g]);
    }
    if g :| g in s'.actors && Unannounced(s'.actors[g]) && !Matches(s'.table, s'.actors[g].id, g) {
      assert g in s.actors && Unannounced(s.actors[g]);
      assert UnannouncedSlot(s, s.actors[g].id) && TakesSlot(s, s.actors[g].id, s.table.connections[s.actors[g].id]);
    }
  }

  lemma HandleKeepsAccounted(s: State)
    requires Inv(s) && Enabled(s, Handle) && Accounted(s)
    ensures Accounted(ApplyHandle(s)) <==> !Unslots(s, Handle)
  {
    hide HandleMsg, Accounted, ActorsOk, CountsOk, AnnouncedOk, PlacesOk, TrackedOk;
    var e := HandleIsHandled(s);
    forall g | g in s.actors && Unannounced(s.actors[g])
      ensures Matches(ApplyHandle(s).table, s.actors[g].id, g) <==> !TakesSlot(s, s.actors[g].id, g)
    {
      UnannouncedHasSlot(s, g);
      UnannouncedSlotLost(s, g);
    }
    HandledAccounts(s, ApplyHandle(s), e);
    UnslotsTakes(s);
  }

  lemma UnannouncedHasSlot(s: State, g: Generation)
    requires Accounted(s) && g in s.actors && Unannounced(s.actors[g])
    ensures Matches(s.table, s.actors[g].id, g)
  {
  }

  lemma UnslotsTakes(s: State)
    requires Enabled(s, Handle) && TableInv(s.table, s.limit)
    ensures Unslots(s, Handle) <==> exists p :: UnannouncedSlot(s, p) && TakesSlot(s, p, s.table.connections[p])
  {
    if s.table.idle != [] {
      assert s.table.idle[0] in s.table.idle;
    }
    if Unslots(s, Handle) {
      var p := if s.queue[0].Shutdown? then s.queue[0].id else s.table.idle[0].0;
      assert UnannouncedSlot(s, p) && TakesSlot(s, p, s.table.connections[p]);
    }
  }

  /** Every actor that has not announced its end still holds its slot after a step, exactly unless the step
      takes the slot of such an actor. */
  lemma AccountedExactlyWhen(trace: seq<State>, labels: seq<Label>, i: nat)
    requires Run(trace, labels) && i < |labels| && Accounted(trace[i])
    ensures Enabled(trace[i], labels[i])
    ensures Accounted(trace[i + 1]) <==> !Unslots(trace[i], labels[i])
  {
    hide Apply, Enabled, Inv, Unslots, Accounted;
    RunKeepsInv(trace, labels, i);
    assert Step(trace[i], labels[i], trace[i + 1]);
    StepAccounts(trace[i], labels[i]);
  }

  lemma StepAccounts(s: State, l: Label)
    requires Inv(s) && Enabled(s, l) && Accounted(s)
    ensures Accounted(Apply(s, l)) <==> !Unslots(s, l)
  {
    if Local(l) {
      LocalKeepsAccounted(s, l);
    } else if l.Handle? {
      HandleKeepsAccounted(s);
    } else if l.Forward? {
      ForwardKeepsAccounted(s);
    } else if l.PoolStop? {
      StopAccounts(s);
    }
  }

  lemma StopAccounts(s: State)
    requires SlotsOk(s) && Accounted(s) && Enabled(s, PoolStop)
    ensures Accounted(Apply(s, PoolStop)) <==> !Unslots(s, PoolStop)
  {
    var s' := Apply(s, PoolStop);
    if p :| p in s.table.connections && UnannouncedSlot(s, p) {
      var g := s.table.connections[p];
      assert g in s'.actors && Unannounced(s'.actors[g]) && !Matches(s'.table, s'.actors[g].id, g);
    }
    if g :| g in s'.actors && Unannounced(s'.actors[g]) && !Matches(s'.table, s'.actors[g].id, g) {
      assert s.actors[g].id in s.table.connections && UnannouncedSlot(s, s.actors[g].id);
    }
  }

  lemma {:induction false} HeldByDistinctSlots(connections: map<Peer, Generation>, gs: set<Generation>)
    requires forall g :: g in gs ==> exists p :: p in connections && connections[p] == g
    ensures |gs| <= |connections|
    decreases |gs|
  {
    if gs != {} {
      var g :| g in gs;
      var p :| p in connections && connections[p] == g;
      forall h | h in gs - {g} ensures exists q :: q in connections - {p} && (connections - {p})[q] == h {
        var q :| q in connections && connections[q] == h;
        assert q in connections - {p};
      }
      HeldByDistinctSlots(connections - {p}, gs - {g});
      ShrunkSize(connections, p);
    }
  }

  /** Until a step takes the slot of an actor that has not announced its end, all such actors hold slots, so
      there are no more of them than the limit. */
  lemma LimitHoldsUntilUnslotted(trace: seq<State>, labels: seq<Label>, i: nat)
    requires Run(trace, labels) && i < |trace|
    requires forall j :: 0 <= j < i ==> Enabled(trace[j], labels[j]) && !Unslots(trace[j], labels[j])
    ensures Accounted(trace[i]) && |UnannouncedActors(trace[i])| <= trace[i].limit
  {
    hide Apply, Enabled, Inv, Unslots;
    AccountedFromStart(trace, labels, i);
    RunKeepsInv(trace, labels, i);
    AccountedFits(trace[i]);
  }

  lemma AccountedFits(s: State)
    requires Inv(s) && Accounted(s)
    ensures |UnannouncedActors(s)| <= s.limit
  {
    forall g | g in UnannouncedActors(s) ensures exists p :: p in s.table.connections && s.table.connections[p] == g {
      assert s.actors[g].id in s.table.connections;
    }
    HeldByDistinctSlots(s.table.connections, UnannouncedActors(s));
  }

  lemma {:induction false} AccountedFromStart(trace: seq<State>, labels: seq<Label>, i: nat)
    requires Run(trace, labels) && i < |trace|
    requires forall j :: 0 <= j < i ==> Enabled(trace[j], labels[j]) && !Unslots(trace[j], labels[j])
    ensures Accounted(trace[i])
  {
    hide Apply, Enabled, Inv, Unslots;
    if i > 0 {
      AccountedFromStart(trace, labels, i - 1);
      RunKeepsInv(trace, labels, i - 1);
      assert Step(trace[i - 1], labels[i - 1], trace[i - 1 + 1]);
      StepAccounts(trace[i - 1], labels[i - 1]);
    }
  }
}
