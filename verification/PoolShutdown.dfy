// What shutting the pool down does to a connection actor, and what it does not (src/pool.rs:363-377, 435-442).

module PoolShutdown {
  import opened PoolTable
  import opened PoolProtocol
  import opened PoolInvariant
  import opened PoolSteps
  import opened PoolTheorems
  import opened PoolRuns

  /** The step is one of the actor of `g`, of its connection or of its leases. */
  predicate Moves(s: State, l: Label, g: Generation) {
    Local(l) && (l.DropLease? ==> l.r in s.leases) && Target(s, l) == g
  }

  /** All that a step can do to the actor of `g`: start it, make its own step, or put a request behind its
      others. */
  ghost predicate Changed(s: State, l: Label, s': State, g: Generation) {
    && g in s'.actors
    && if g !in s.actors then s'.actors[g] == NewActor(s'.actors[g].id)
       else if Moves(s, l, g) then ActorEnabled(s.actors[g], l, s.closed)
           && s'.actors[g] == ActorNext(s.actors[g], l, s.closed)
       else
         && s.actors[g].mailbox <= s'.actors[g].mailbox
         && s'.actors[g] == s.actors[g].(mailbox := s'.actors[g].mailbox)
  }

  lemma ChangeOfActor(s: State, l: Label, g: Generation)
    requires Inv(s) && Enabled(s, l) && (g in s.actors || g in Apply(s, l).actors)
    ensures Changed(s, l, Apply(s, l), g)
  {
    hide HandleMsg, ApplyLocal, ApplyHandle, ApplyForward, ActorsOk, CountsOk, AnnouncedOk, PlacesOk, TrackedOk,
        Changed;
    if Local(l) {
      LocalChange(s, l, g);
    } else if l.Handle? {
      var e := HandleIsHandled(s);
      HandledChange(s, ApplyHandle(s), e, g);
    } else if l.Forward? {
      ForwardChange(s, g);
    } else {
      NoChange(s, l, Apply(s, l), g);
    }
  }

  lemma LocalChange(s: State, l: Label, g: Generation)
    requires Local(l) && LocalEnabled(s, l) && (g in s.actors || g in ApplyLocal(s, l).actors)
    ensures Changed(s, l, ApplyLocal(s, l), g)
  {
    hide ActorNext;
  }

  lemma ForwardChange(s: State, g: Generation)
    requires Enabled(s, Forward) && (g in s.actors || g in ApplyForward(s).actors)
    ensures Changed(s, Forward, ApplyForward(s), g)
  {
    hide ActorNext, ActorEnabled, NewActor, RemoveIfMatch;
  }

  lemma NoChange(s: State, l: Label, s': State, g: Generation)
    requires s'.actors == s.actors && g in s.actors && !Local(l)
    ensures Changed(s, l, s', g)
  {
  }

  lemma ActorsAreOk(s: State, g: Generation)
    requires ActorsOk(s) && g in s.actors
    ensures ActorOk(s.actors[g])
  {
  }

  lemma HandledChange(s: State, s': State, e: Effect, g: Generation)
    requires Handled(s, s', e) && (g in s.actors || g in s'.actors)
    ensures Changed(s, Handle, s', g)
  {
  }

  // ---------------------------------------------------------------------------
  // A connection that has seen the flag ends with its last lease
  // ---------------------------------------------------------------------------

  predicate Ended(a: Actor) {
    a.phase.Breaking? || a.phase.Stopped?
  }

  /** Once the flag is seen, no idle timer is armed and no idleness reported. */
  predicate NeverIdles(a: Actor) {
    a.shutdownPending && !Ended(a) ==> !a.idleActive && !a.phase.ReportIdle? && !a.phase.ReportExpired?
  }

  lemma NeverIdlesStays(a: Actor, l: Label, closed: bool)
    requires ActorOk(a) && Local(l) && ActorEnabled(a, l, closed) && NeverIdles(a)
    ensures NeverIdles(ActorNext(a, l, closed))
  {
  }

  lemma StepKeepsNeverIdles(s: State, l: Label, g: Generation)
    requires Inv(s) && Enabled(s, l) && g in Apply(s, l).actors
    requires g in s.actors ==> NeverIdles(s.actors[g])
    ensures NeverIdles(Apply(s, l).actors[g])
  {
    hide Apply, ActorNext, ActorsOk, SlotsOk, CountsOk, AnnouncedOk, PlacesOk, TrackedOk;
    ChangeOfActor(s, l, g);
    if g in s.actors && Moves(s, l, g) {
      ActorsAreOk(s, g);
      NeverIdlesStays(s.actors[g], l, s.closed);
    }
  }

  lemma {:induction false} NeverIdlesInRuns(trace: seq<State>, labels: seq<Label>, i: nat, g: Generation)
    requires Run(trace, labels) && i < |trace| && g in trace[i].actors
    ensures NeverIdles(trace[i].actors[g])
  {
    hide Apply, Enabled, Inv, NeverIdles;
    if i > 0 {
      if g in trace[i - 1].actors {
        NeverIdlesInRuns(trace, labels, i - 1, g);
      }
      RunKeepsInv(trace, labels, i - 1);
      assert Step(trace[i - 1], labels[i - 1], trace[i - 1 + 1]);
      StepKeepsNeverIdles(trace[i - 1], labels[i - 1], g);
    }
  }

  /** A connection that has granted a lease, has seen the flag and has no lease outstanding is about to be
      woken, and being woken ends it; until then, whatever it waits for, it keeps its leases. */
  lemma DrainsWithLastLease(trace: seq<State>, labels: seq<Label>, k: nat, i: nat, r: RequestId, g: Generation)
    requires Run(trace, labels) && k < i < |trace| && k < |labels| && Grants(trace[k], labels[k], r, g)
    requires g in trace[i].actors && trace[i].actors[g].phase.Select? && trace[i].actors[g].shutdownPending
    ensures var a := trace[i].actors[g];
            && (LeasesOf(trace[i].leases, g) == {} ==> a.permit || a.notifying > 0)
            && (Enabled(trace[i], Wake(g)) ==>
                  var woken := Apply(trace[i], Wake(g)).actors[g];
                  (woken.phase == Breaking(Drained) <==> LeasesOf(trace[i].leases, g) == {}))
  {
    NeverIdlesInRuns(trace, labels, i, g);
    if LeasesOf(trace[i].leases, g) == {} {
      NoLostWakeup(trace, labels, k, i, r, g);
    }
    CounterCountsLeases(trace, labels, i, g);
  }

  // ---------------------------------------------------------------------------
  // A failed connection may never end
  // ---------------------------------------------------------------------------

  /** These steps of the actor and its leases lead out of its loop; none is the remote side's. */
  ghost predicate Leaves(a: Actor, steps: seq<Label>)
    decreases |steps|
  {
    if steps == [] then Ended(a)
    else
      && Local(steps[0]) && !steps[0].RemoteClose? && ActorEnabled(a, steps[0], true)
      && Leaves(ActorNext(a, steps[0], true), steps[1..])
  }

  ghost predicate CanLeave(a: Actor) {
    exists steps :: Leaves(a, steps)
  }

  /** At its select, with the flag seen, after a failed connect. */
  predicate Stuck(a: Actor) {
    a.phase.Select? && a.shutdownPending && a.link.Failed? && a.count == 0 && a.notifying == 0 && !a.idleActive
  }

  lemma StuckStays(a: Actor, l: Label, closed: bool)
    requires Stuck(a) && Local(l) && ActorEnabled(a, l, closed)
    ensures Stuck(ActorNext(a, l, closed))
  {
  }

  lemma {:induction false} StuckNeverLeaves(a: Actor, steps: seq<Label>)
    requires Stuck(a)
    ensures !Leaves(a, steps)
    decreases |steps|
  {
    if steps != [] && Local(steps[0]) && ActorEnabled(a, steps[0], true) {
      StuckStays(a, steps[0], true);
      StuckNeverLeaves(ActorNext(a, steps[0], true), steps[1..]);
    }
  }

  lemma StuckCannotLeave(a: Actor)
    requires Stuck(a)
    ensures !CanLeave(a)
  {
    if steps :| Leaves(a, steps) {
      StuckNeverLeaves(a, steps);
    }
  }

  lemma OneMore(a: Actor, l: Label, rest: seq<Label>)
    requires Local(l) && !l.RemoteClose? && ActorEnabled(a, l, true) && Leaves(ActorNext(a, l, true), rest)
    ensures Leaves(a, [l] + rest)
  {
    assert ([l] + rest)[0] == l && ([l] + rest)[1..] == rest;
  }

  /** An actor without a connection has no leases, no notifications and no timer. */
  predicate NothingToWaitFor(a: Actor) {
    !a.link.Up? ==> a.count == 0 && a.notifying == 0 && !a.idleActive
  }

  lemma NothingToWaitForStays(a: Actor, l: Label, closed: bool)
    requires ActorOk(a) && Local(l) && ActorEnabled(a, l, closed) && NothingToWaitFor(a)
    ensures NothingToWaitFor(ActorNext(a, l, closed))
  {
  }

  lemma StepKeepsNothing(s: State, l: Label, g: Generation)
    requires Inv(s) && Enabled(s, l) && g in Apply(s, l).actors
    requires g in s.actors ==> NothingToWaitFor(s.actors[g])
    ensures NothingToWaitFor(Apply(s, l).actors[g])
  {
    hide Apply, ActorNext, ActorsOk, SlotsOk, CountsOk, AnnouncedOk, PlacesOk, TrackedOk;
    ChangeOfActor(s, l, g);
    if g in s.actors && Moves(s, l, g) {
      ActorsAreOk(s, g);
      NothingToWaitForStays(s.actors[g], l, s.closed);
    }
  }

  lemma {:induction false} NothingInRuns(trace: seq<State>, labels: seq<Label>, i: nat, g: Generation)
    requires Run(trace, labels) && i < |trace| && g in trace[i].actors
    ensures NothingToWaitFor(trace[i].actors[g])
  {
    hide Apply, Enabled, Inv, NothingToWaitFor;
    if i > 0 {
      if g in trace[i - 1].actors {
        NothingInRuns(trace, labels, i - 1, g);
      }
      RunKeepsInv(trace, labels, i - 1);
      assert Step(trace[i - 1], labels[i - 1], trace[i - 1 + 1]);
      StepKeepsNothing(trace[i - 1], labels[i - 1], g);
    }
  }

  lemma StuckInRun(trace: seq<State>, labels: seq<Label>, i: nat, g: Generation)
    requires Run(trace, labels) && i < |trace| && g in trace[i].actors
    requires trace[i].actors[g].phase.Select? && trace[i].actors[g].shutdownPending && !trace[i].actors[g].link.Up?
    ensures Stuck(trace[i].actors[g])
  {
    NothingInRuns(trace, labels, i, g);
    RunKeepsInv(trace, labels, i);
    assert ActorOk(trace[i].actors[g]);
  }

  /** The connect of `g` has failed and the actor is at its select, but it will not act on the shutdown: it
      has seen the flag and has nothing to wait for, or was not waiting when those waiting were notified. */
  ghost predicate Deaf(s: State, g: Generation) {
    && g in s.actors && s.actors[g].link.Failed? && s.actors[g].phase.Select?
    && (s.actors[g].shutdownPending || (s.notified && g !in s.woken))
  }

  lemma FailedStaysAtSelect(a: Actor, l: Label, closed: bool)
    requires ActorOk(a) && a.link.Failed? && a.phase.Select? && Local(l) && ActorEnabled(a, l, closed)
    requires l.SeeShutdown? ==> a.shutdownPending
    ensures var b := ActorNext(a, l, closed);
            b.link.Failed? && b.phase.Select? && (a.shutdownPending ==> b.shutdownPending)
  {
  }

  /** Only the one notification adds to the woken. */
  lemma WokenShrinks(s: State, l: Label)
    requires Enabled(s, l) && s.notified
    ensures Apply(s, l).notified && Apply(s, l).woken <= s.woken
  {
    hide HandleMsg, ActorNext, ActorEnabled;
  }

  lemma StepKeepsDeaf(s: State, l: Label, g: Generation)
    requires Inv(s) && Enabled(s, l) && Deaf(s, g)
    ensures Deaf(Apply(s, l), g)
  {
    hide Apply, ActorNext, ActorEnabled, ActorsOk, SlotsOk, CountsOk, AnnouncedOk, PlacesOk, TrackedOk;
    ChangeOfActor(s, l, g);
    if Moves(s, l, g) {
      ActorsAreOk(s, g);
      SeesOnlyIfWoken(s, l, g);
      FailedStaysAtSelect(s.actors[g], l, s.closed);
    }
    if s.notified {
      WokenShrinks(s, l);
    }
  }

  lemma SeesOnlyIfWoken(s: State, l: Label, g: Generation)
    requires Enabled(s, l) && Deaf(s, g) && Moves(s, l, g)
    ensures l.SeeShutdown? ==> s.actors[g].shutdownPending
  {
  }

  /** So the pool never finishes shutting down: such an actor stays for the rest of the run, and the pool
      waits for it. */
  lemma {:induction false} FailedConnectHoldsUpShutdown(trace: seq<State>, labels: seq<Label>, i: nat, j: nat,
                                                        g: Generation)
    requires Run(trace, labels) && i <= j < |trace| && Deaf(trace[i], g)
    ensures Deaf(trace[j], g) && !Enabled(trace[j], PoolDrop)
  {
    hide Apply, Inv, Deaf;
    if i < j {
      FailedConnectHoldsUpShutdown(trace, labels, i, j - 1, g);
      RunKeepsInv(trace, labels, j - 1);
      assert Step(trace[j - 1], labels[j - 1], trace[j - 1 + 1]);
      StepKeepsDeaf(trace[j - 1], labels[j - 1], g);
    }
    DeafIsNotStopped(trace[j], g);
  }

  lemma DeafIsNotStopped(s: State, g: Generation)
    requires Deaf(s, g)
    ensures g in s.actors && !s.actors[g].phase.Stopped?
  {
  }

  /** The run can go on, from its state `i`, to one in which the actor of `g` has ended. */
  ghost predicate CanEnd(trace: seq<State>, labels: seq<Label>, i: nat, g: Generation)
    requires i <= |labels| < |trace|
  {
    exists t, m :: Extends(trace, labels, i, t, m) && g in Last(t).actors && Ended(Last(t).actors[g])
  }

  /** Nobody is woken before the notification, which follows the flag. */
  ghost predicate WokenInOrder(s: State) {
    (s.notified ==> s.closed) && (s.woken != {} ==> s.notified)
  }

  lemma {:induction false} WokenInRuns(trace: seq<State>, labels: seq<Label>, i: nat)
    requires Run(trace, labels) && i < |trace|
    ensures WokenInOrder(trace[i])
  {
    hide Apply, Enabled, WokenInOrder;
    if i > 0 {
      WokenInRuns(trace, labels, i - 1);
      assert Step(trace[i - 1], labels[i - 1], trace[i - 1 + 1]);
      StepKeepsWoken(trace[i - 1], labels[i - 1]);
    } else {
      StartsInOrder(trace[0].limit);
    }
  }

  lemma StartsInOrder(limit: nat)
    ensures WokenInOrder(Start(limit))
  {
  }

  lemma StepKeepsWoken(s: State, l: Label)
    requires Enabled(s, l) && WokenInOrder(s)
    ensures WokenInOrder(Apply(s, l))
  {
    hide HandleMsg, ActorNext, ActorEnabled;
  }

  lemma SeeingEnds(s: State, g: Generation)
    requires Inv(s) && s.closed && g in s.woken && g in s.actors
    requires s.actors[g].phase.Select? && s.actors[g].link.Failed? && !s.actors[g].shutdownPending
    ensures Enabled(s, SeeShutdown(g))
    ensures g in Apply(s, SeeShutdown(g)).actors && Ended(Apply(s, SeeShutdown(g)).actors[g])
  {
    ActorsAreOk(s, g);
  }

  lemma {:induction false} ListeningCanEnd(trace: seq<State>, labels: seq<Label>, g: Generation)
    returns (t: seq<State>, m: seq<Label>)
    requires Run(trace, labels) && g in Last(trace).actors && !Deaf(Last(trace), g)
    requires Last(trace).actors[g].link.Failed? && Last(trace).actors[g].phase.Select?
    ensures Run(t, m) && trace <= t && labels <= m && g in Last(t).actors && Ended(Last(t).actors[g])
    decreases !Last(trace).closed, !Last(trace).notified
  {
    hide Inv, ApplyLocal, LocalEnabled, Step;
    var s := Last(trace);
    assert s == trace[|trace| - 1];
    WokenInRuns(trace, labels, |trace| - 1);
    RunKeepsInv(trace, labels, |trace| - 1);
    if !s.closed {
      Append(trace, labels, ClosePool);
      t, m := ListeningCanEnd(trace + [Apply(s, ClosePool)], labels + [ClosePool], g);
    } else if !s.notified {
      Append(trace, labels, NotifyWaiters({g}));
      t, m := ListeningCanEnd(trace + [Apply(s, NotifyWaiters({g}))], labels + [NotifyWaiters({g})], g);
    } else {
      SeeingEnds(s, g);
      Append(trace, labels, SeeShutdown(g));
      t, m := trace + [Apply(s, SeeShutdown(g))], labels + [SeeShutdown(g)];
    }
  }

  /** An actor whose connect failed can still end, from its select, if and only if it has not seen the flag
      and its wait for the notification has not been in vain. */
  lemma FailedEndsExactlyWhen(trace: seq<State>, labels: seq<Label>, i: nat, g: Generation)
    requires Run(trace, labels) && i < |trace| && g in trace[i].actors
    requires trace[i].actors[g].link.Failed? && trace[i].actors[g].phase.Select?
    ensures CanEnd(trace, labels, i, g) <==> !Deaf(trace[i], g)
  {
    hide Step, Deaf;
    if Deaf(trace[i], g) {
      forall t, m | Extends(trace, labels, i, t, m) ensures g in Last(t).actors && !Ended(Last(t).actors[g]) {
        DeafStaysInExtension(trace, labels, i, t, m, g);
      }
    } else {
      PrefixIsRun(trace, labels, i);
      var t, m := ListeningCanEnd(trace[..i + 1], labels[..i], g);
      assert Extends(trace, labels, i, t, m);
    }
  }

  lemma DeafStaysInExtension(trace: seq<State>, labels: seq<Label>, i: nat, t: seq<State>, m: seq<Label>,
                             g: Generation)
    requires Run(trace, labels) && i < |trace| && Deaf(trace[i], g) && Extends(trace, labels, i, t, m)
    ensures g in Last(t).actors && !Ended(Last(t).actors[g])
  {
    hide Step;
    assert t[i] == trace[..i + 1][i];
    FailedConnectHoldsUpShutdown(t, m, i, |t| - 1, g);
  }

  /** On an open pool such an actor never ends at all: it waits on a mailbox of which it holds a sender. */
  lemma FailedConnectNeverEndsOnOpenPool(trace: seq<State>, labels: seq<Label>, i: nat, g: Generation)
    requires Run(trace, labels) && i < |trace| && g in trace[i].actors
    requires trace[i].actors[g].link.Failed? && !trace[i].closed
    ensures !Ended(trace[i].actors[g])
  {
    hide Step, ActorsOk, SlotsOk, CountsOk, AnnouncedOk, PlacesOk, TrackedOk;
    RunKeepsInv(trace, labels, i);
    ActorsAreOk(trace[i], g);
    OpenPoolDrainsNobody(trace[i], g);
    EndsConnectedOrDrained(trace[i].actors[g]);
  }

  lemma OpenPoolDrainsNobody(s: State, g: Generation)
    requires AnnouncedOk(s) && !s.closed && g in s.actors
    ensures !Draining(s.actors[g])
  {
  }

  lemma EndsConnectedOrDrained(a: Actor)
    requires LinkFits(a)
    ensures Ended(a) ==> a.link.Up? || Draining(a)
  {
  }

  /** From `Asked`: the pool is closed, the connect fails, and the actor enters its loop. */
  function Failing(i: nat): State {
    match i
    case 0 => Asked
    case 1 => Asked.(closed := true)
    case 2 => Asked.(closed := true, actors := map[1 := FailedToTen(ReportFailure)])
    case 3 => Asked.(closed := true, actors := map[1 := FailedToTen(Entering)], queue := [Shutdown(10, 1)])
    case _ => Asked.(closed := true, actors := map[1 := FailedToTen(Select).(shutdownPending := true)],
                     queue := [Shutdown(10, 1)])
  }

  function FailedToTen(phase: Phase): Actor {
    ToTen(phase, Failed(ConnectError)).(mailbox := [0])
  }

  const FAILING: seq<Label> := [ClosePool, ConnectFailed(1, ConnectError), Report(1), Enter(1)]

  lemma Failing0() ensures Step(Failing(0), FAILING[0], Failing(1)) {}
  lemma Failing1() ensures Step(Failing(1), FAILING[1], Failing(2)) {}
  lemma Failing2() ensures Step(Failing(2), FAILING[2], Failing(3)) {}
  lemma Failing3() ensures Step(Failing(3), FAILING[3], Failing(4)) {}

  /** A run that gets there. */
  lemma ShutdownGetsStuck() returns (trace: seq<State>, labels: seq<Label>)
    ensures Run(trace, labels)
    ensures Last(trace).closed && Deaf(Last(trace), 1) && Last(trace).actors[1].shutdownPending
  {
    hide Step;
    var before, sent := RunToAsked();
    var states := seq(5, i requires 0 <= i < 5 => Failing(i));
    Failing0();
    Failing1();
    Failing2();
    Failing3();
    Continue(before, sent, states, FAILING);
    trace, labels := before + states[1..], sent + FAILING;
  }

  /** From `Asked`: the connect fails, the actor loads the flag, and only then the pool is closed, before the
      actor waits for the notification. */
  function Missing(i: nat): State {
    match i
    case 0 => Asked
    case 1 => Asked.(actors := map[1 := FailedToTen(ReportFailure)])
    case 2 => Asked.(actors := map[1 := FailedToTen(Entering)], queue := [Shutdown(10, 1)])
    case 3 => Asked.(actors := map[1 := FailedToTen(Select)], queue := [Shutdown(10, 1)])
    case 4 => Missing(3).(closed := true)
    case _ => Missing(3).(closed := true, notified := true)
  }

  const MISSING: seq<Label> :=
    [ConnectFailed(1, ConnectError), Report(1), Enter(1), ClosePool, NotifyWaiters({})]

  lemma Missing0() ensures Step(Missing(0), MISSING[0], Missing(1)) {}
  lemma Missing1() ensures Step(Missing(1), MISSING[1], Missing(2)) {}
  lemma Missing2() ensures Step(Missing(2), MISSING[2], Missing(3)) {}
  lemma Missing3() ensures Step(Missing(3), MISSING[3], Missing(4)) {}
  lemma Missing4() ensures Step(Missing(4), MISSING[4], Missing(5)) {}

  /** A run in which the actor misses the notification. */
  lemma ShutdownIsMissed() returns (trace: seq<State>, labels: seq<Label>)
    ensures Run(trace, labels)
    ensures Last(trace).closed && Deaf(Last(trace), 1) && !Last(trace).actors[1].shutdownPending
  {
    hide Step;
    var before, sent := RunToAsked();
    var states := seq(6, i requires 0 <= i < 6 => Missing(i));
    Missing0();
    Missing1();
    Missing2();
    Missing3();
    Missing4();
    Continue(before, sent, states, MISSING);
    trace, labels := before + states[1..], sent + MISSING;
  }

  // ---------------------------------------------------------------------------
  // A connected actor ends by itself
  // ---------------------------------------------------------------------------

  /** Whoever counts or waits has been granted a lease. */
  predicate IssuedFirst(a: Actor) {
    a.count > 0 || a.notifying > 0 || a.permit || a.phase.ReportIdle? ==> a.issued
  }

  /** An actor on its way to serving that has nothing to serve and never had. */
  predicate Hungry(a: Actor) {
    (a.phase.Connecting? || a.phase.Entering? || a.phase.Select?) && !a.link.Failed? && !a.issued && a.mailbox == []
  }

  lemma HungerStays(a: Actor, l: Label, closed: bool)
    requires ActorOk(a) && Local(l) && ActorEnabled(a, l, closed) && IssuedFirst(a)
    ensures IssuedFirst(ActorNext(a, l, closed))
    ensures Hungry(ActorNext(a, l, closed)) ==> Hungry(a)
  {
  }

  /** An actor is hungry only while its first request is being handed over. */
  ghost predicate FedInTime(s: State, g: Generation) {
    g in s.actors ==> IssuedFirst(s.actors[g]) && (Hungry(s.actors[g]) ==> HandedTo(s, g))
  }

  predicate HandedTo(s: State, g: Generation) {
    s.forwarding.Some? && s.forwarding.value.0 == g
  }

  lemma StepKeepsFed(s: State, l: Label, g: Generation)
    requires Inv(s) && Enabled(s, l) && FedInTime(s, g)
    ensures FedInTime(Apply(s, l), g)
  {
    hide Apply, ActorNext, ActorsOk, SlotsOk, CountsOk, AnnouncedOk, PlacesOk, TrackedOk;
    if g in Apply(s, l).actors {
      ChangeOfActor(s, l, g);
      if g in s.actors && Moves(s, l, g) {
        ActorsAreOk(s, g);
        HungerStays(s.actors[g], l, s.closed);
      }
      ForwardingMoves(s, l, g);
    }
  }

  /** A hand-over begins with the actor and ends in its mailbox. */
  lemma ForwardingMoves(s: State, l: Label, g: Generation)
    requires Inv(s) && Enabled(s, l) && g in Apply(s, l).actors
    ensures g !in s.actors ==> HandedTo(Apply(s, l), g)
    ensures g in s.actors && HandedTo(s, g) ==>
              || HandedTo(Apply(s, l), g)
              || Apply(s, l).actors[g].mailbox != [] || Apply(s, l).actors[g].phase.Stopped?
  {
    hide HandleMsg, ApplyLocal, ApplyForward, LocalEnabled, ActorsOk, CountsOk, AnnouncedOk, PlacesOk, TrackedOk;
    if Local(l) {
      LocalForwards(s, l);
    } else if l.Handle? {
      var e := HandleIsHandled(s);
    } else if l.Forward? {
      ForwardDelivers(s);
    }
  }

  lemma LocalForwards(s: State, l: Label)
    requires Local(l) && LocalEnabled(s, l)
    ensures ApplyLocal(s, l).forwarding == s.forwarding && ApplyLocal(s, l).actors.Keys == s.actors.Keys
  {
    hide ActorNext;
  }

  lemma ForwardDelivers(s: State)
    requires Enabled(s, Forward)
    ensures ApplyForward(s).actors.Keys == s.actors.Keys
    ensures var g := s.forwarding.value.0;
            && g in ApplyForward(s).actors
            && (ApplyForward(s).actors[g].mailbox != [] || ApplyForward(s).actors[g].phase.Stopped?)
  {
    hide RemoveIfMatch;
  }

  lemma {:induction false} FedInRuns(trace: seq<State>, labels: seq<Label>, i: nat, g: Generation)
    requires Run(trace, labels) && i < |trace|
    ensures FedInTime(trace[i], g)
  {
    hide Apply, Enabled, Inv, FedInTime;
    if i > 0 {
      FedInRuns(trace, labels, i - 1, g);
      RunKeepsInv(trace, labels, i - 1);
      assert Step(trace[i - 1], labels[i - 1], trace[i - 1 + 1]);
      StepKeepsFed(trace[i - 1], labels[i - 1], g);
    } else {
      StartsFed(trace[0], g);
    }
  }

  lemma StartsFed(s: State, g: Generation)
    requires s.actors == map[]
    ensures FedInTime(s, g)
  {
  }

  /** A connected actor that has seen the flag and will not be idle again. */
  predicate Drains(a: Actor) {
    && a.shutdownPending && a.link.Up? && !a.idleActive
    && (a.phase.Select? || a.phase.ReportClosed? || a.phase.ReportStale? || a.phase.AnswerStale?)
    && IssuedFirst(a)
    && (a.phase.Select? ==> a.mailbox != [] || a.issued)
    && (a.phase.Select? && a.issued && a.count == 0 ==> a.permit || a.notifying > 0)
  }

  /** What is left to do before the end. */
  function Effort(a: Actor): nat {
    8 * |a.mailbox| + 4 * a.count + 2 * a.notifying + (if a.permit then 1 else 0)
    + (match a.phase
       case Select => 3
       case ReportClosed => 2
       case ReportStale(_) => 2
       case AnswerStale(_) => 1
       case _ => 0)
  }

  lemma DrainingGoesOn(a: Actor, l: Label, closed: bool)
    requires Drains(a) && Local(l) && ActorEnabled(a, l, closed)
    ensures var b := ActorNext(a, l, closed);
            Ended(b) || (Drains(b) && Effort(b) + (if l.RemoteClose? then 0 else 1) <= Effort(a))
  {
  }

  lemma ActorCanDrain(a: Actor, g: Generation, r: RequestId) returns (l: Label)
    requires Drains(a)
    ensures Local(l) && !l.RemoteClose? && ActorEnabled(a, l, true)
  {
    l := DrainStep(a, g, r);
  }

  /** A step of a draining actor, with `r` for one of its leases. */
  function DrainStep(a: Actor, g: Generation, r: RequestId): Label {
    if a.phase.AnswerStale? then AnswerClosed(g)
    else if !a.phase.Select? then Report(g)
    else if a.mailbox != [] then Receive(g)
    else if a.count > 0 then DropLease(r)
    else if a.notifying > 0 then NotifyOne(g)
    else Wake(g)
  }

  /** The steps of the actor of `g` and of its leases between `i` and `j`; the remote side's do not count. */
  function OwnSteps(trace: seq<State>, labels: seq<Label>, i: nat, j: nat, g: Generation): nat
    requires i <= j <= |labels| < |trace|
  {
    if i == j then 0
    else
      OwnSteps(trace, labels, i, j - 1, g)
      + if Own(trace[j - 1], labels[j - 1], g) then 1 else 0
  }

  predicate Own(s: State, l: Label, g: Generation) {
    Moves(s, l, g) && !l.RemoteClose?
  }

  /** No request reaches the actor of `g` by this step. */
  predicate NoMail(s: State, s': State, g: Generation) {
    g in s.actors && g in s'.actors && |s'.actors[g].mailbox| <= |s.actors[g].mailbox|
  }

  lemma StepDrains(s: State, l: Label, g: Generation)
    requires Inv(s) && Enabled(s, l) && g in s.actors && NoMail(s, Apply(s, l), g)
    requires Drains(s.actors[g])
    ensures var b := Apply(s, l).actors[g];
            Ended(b) || (Drains(b) && Effort(b) + (if Own(s, l, g) then 1 else 0) <= Effort(s.actors[g]))
  {
    hide Apply, ActorNext, Inv, Drains, Effort, Ended;
    ChangeOfActor(s, l, g);
    if Moves(s, l, g) {
      DrainingGoesOn(s.actors[g], l, s.closed);
    } else {
      assert Apply(s, l).actors[g].mailbox == s.actors[g].mailbox;
    }
  }

  lemma EndedStays(s: State, l: Label, g: Generation)
    requires Inv(s) && Enabled(s, l) && g in s.actors && Ended(s.actors[g])
    ensures g in Apply(s, l).actors && Ended(Apply(s, l).actors[g])
  {
    hide Apply, Inv;
    ChangeOfActor(s, l, g);
  }

  /** A connected actor that has seen the flag ends without any help from the remote side: as long as no
      further request reaches it, it ends within `Effort` steps of itself and its leases. */
  lemma {:induction false} DrainsByItself(trace: seq<State>, labels: seq<Label>, i: nat, j: nat, g: Generation)
    requires Run(trace, labels) && i <= j < |trace| && g in trace[i].actors
    requires trace[i].actors[g].phase.Select? && trace[i].actors[g].link.Up? && trace[i].actors[g].shutdownPending
    requires !HandedTo(trace[i], g)
    requires forall k :: i <= k < j ==> NoMail(trace[k], trace[k + 1], g)
    ensures g in trace[j].actors
    ensures var (a, b) := (trace[i].actors[g], trace[j].actors[g]);
            Ended(b) || (Drains(b) && OwnSteps(trace, labels, i, j, g) + Effort(b) <= Effort(a))
    decreases j
  {
    hide Apply, Enabled, Inv, Drains, Effort, Ended, Own;
    if i == j {
      SelectDrains(trace, labels, i, g);
    } else {
      DrainsByItself(trace, labels, i, j - 1, g);
      RunKeepsInv(trace, labels, j - 1);
      assert Step(trace[j - 1], labels[j - 1], trace[j - 1 + 1]);
      if Ended(trace[j - 1].actors[g]) {
        EndedStays(trace[j - 1], labels[j - 1], g);
      } else {
        assert NoMail(trace[j - 1], trace[j - 1 + 1], g);
        StepDrains(trace[j - 1], labels[j - 1], g);
      }
    }
  }

  /** A draining actor can always go on: one of its own steps is enabled, or the pool queue is full and the
      pool actor can make room. */
  lemma DrainingCanGoOn(trace: seq<State>, labels: seq<Label>, i: nat, g: Generation) returns (l: Label)
    requires Run(trace, labels) && i < |trace| && g in trace[i].actors && Drains(trace[i].actors[g])
    ensures Enabled(trace[i], l)
    ensures Own(trace[i], l, g) || (|trace[i].queue| == POOL_CHANNEL_CAPACITY && (l.Handle? || l.Forward?))
  {
    hide Run;
    RunKeepsInv(trace, labels, i);
    l := StateCanDrain(trace[i], g);
  }

  lemma StateCanDrain(s: State, g: Generation) returns (l: Label)
    requires Inv(s) && g in s.actors && Drains(s.actors[g])
    ensures Enabled(s, l)
    ensures Own(s, l, g) || (|s.queue| == POOL_CHANNEL_CAPACITY && (l.Handle? || l.Forward?))
  {
    hide SlotsOk, AnnouncedOk, PlacesOk, TrackedOk, ActorOk;
    var a := s.actors[g];
    var r: RequestId := 0;
    if a.count > 0 {
      CountedIsLeased(s, g);
      r :| r in s.leases && s.leases[r] == g;
    }
    l := DrainStep(a, g, r);
    if l.Report? && s.running && |s.queue| == POOL_CHANNEL_CAPACITY {
      l := if s.forwarding.Some? then Forward else Handle;
    }
  }

  /** The actor of `g` with the request that is being handed over to it, if one is. */
  function WithHandover(s: State, g: Generation): Actor
    requires g in s.actors
  {
    var a := s.actors[g];
    if HandedTo(s, g) then a.(mailbox := a.mailbox + [s.forwarding.value.1]) else a
  }

  lemma SelectDrains(trace: seq<State>, labels: seq<Label>, i: nat, g: Generation)
    requires Run(trace, labels) && i < |trace| && g in trace[i].actors
    requires trace[i].actors[g].phase.Select? && trace[i].actors[g].link.Up? && trace[i].actors[g].shutdownPending
    ensures Drains(WithHandover(trace[i], g))
  {
    FedInRuns(trace, labels, i, g);
    NeverIdlesInRuns(trace, labels, i, g);
    RunKeepsInv(trace, labels, i);
    assert ActorOk(trace[i].actors[g]);
  }

  lemma {:induction false} DrainingCanLeave(a: Actor, g: Generation, r: RequestId) returns (steps: seq<Label>)
    requires Drains(a)
    ensures Leaves(a, steps) && CanLeave(a)
    decreases Effort(a)
  {
    hide ActorNext, Drains, Effort;
    var l := ActorCanDrain(a, g, r);
    DrainingGoesOn(a, l, true);
    if Ended(ActorNext(a, l, true)) {
      steps := [];
    } else {
      steps := DrainingCanLeave(ActorNext(a, l, true), g, r);
    }
    OneMore(a, l, steps);
    steps := [l] + steps;
  }

  /** An actor at its select that has seen the flag can still leave its loop without the remote side's help
      if and only if its connect succeeded. */
  lemma CanLeaveExactlyWhen(trace: seq<State>, labels: seq<Label>, i: nat, g: Generation)
    requires Run(trace, labels) && i < |trace| && g in trace[i].actors
    requires trace[i].actors[g].phase.Select? && trace[i].actors[g].shutdownPending
    ensures CanLeave(WithHandover(trace[i], g)) <==> trace[i].actors[g].link.Up?
  {
    hide Run, CanLeave;
    if trace[i].actors[g].link.Up? {
      SelectDrains(trace, labels, i, g);
      var steps := DrainingCanLeave(WithHandover(trace[i], g), g, 0);
    } else {
      StuckInRun(trace, labels, i, g);
      StuckCannotLeave(WithHandover(trace[i], g));
    }
  }
}
