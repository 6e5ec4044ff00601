// A request can be lost on an open pool: its caller sees `PoolError::Shutdown` (src/pool.rs:713) although nothing
// was shut down. A run that does it, why a request is lost, and which requests can still be answered.

module PoolLosses {
  import opened Wrappers
  import opened PoolTable
  import opened PoolProtocol
  import opened PoolInvariant
  import opened PoolSteps
  import opened PoolTheorems
  import opened PoolRuns
  import opened PoolShutdown

  // ---------------------------------------------------------------------------
  // The run
  // ---------------------------------------------------------------------------

  function Expiring(phase: Phase, mailbox: seq<RequestId>): map<Generation, Actor> {
    map[1 := Used(phase, 0, false, true).(mailbox := mailbox)]
  }

  /** From `Idled`: the timer fires, and before the pool hears of it a second request is forwarded. */
  function Losing(i: nat): State {
    match i
    case 0 => Idled
    case 1 => S([], TIdle, Expiring(ReportExpired, []), Granted)
    case 2 => S([Request(1, 10)], TIdle, Expiring(ReportExpired, []), Granted[1 := Queued])
    case 3 => S([], T1, Expiring(ReportExpired, [1]), Granted[1 := Mailed(1)])
    case 4 => S([Shutdown(10, 1)], T1, Expiring(Breaking(Expired), [1]), Granted[1 := Mailed(1)])
    case _ => S([Shutdown(10, 1)], T1, Expiring(Stopped(Expired), []), Granted[1 := Dropped])
  }

  const LOSING: seq<Label> := [Expire(1), SendRequest(1, 10), Handle, Report(1), Stop(1)]

  lemma Losing0() ensures Step(Losing(0), LOSING[0], Losing(1)) {}
  lemma Losing1() ensures Step(Losing(1), LOSING[1], Losing(2)) {}

  lemma Losing2()
    ensures Step(Losing(2), LOSING[2], Losing(3))
  {
    HandledToLosing3(Losing(2));
  }

  lemma HandledToLosing3(s: State)
    requires s == Losing(2)
    ensures Enabled(s, Handle) && ApplyHandle(s) == Losing(3)
  {
    var e := Forwarded(1, 1);
    assert s.queue[1..] == [] && SlotOutcome(s, 10) == Accepted;
    assert HandleMsg(TIdle, 1, Request(1, 10), Accepted) == (T1, e);
    assert [] + [1] == [1];
    assert EffectActors(s.actors, e) == Expiring(ReportExpired, [1]);
    assert EffectPlaces(s.places, e) == Granted[1 := Mailed(1)];
  }

  lemma Losing3() ensures Step(Losing(3), LOSING[3], Losing(4)) {}
  lemma Losing4() ensures Step(Losing(4), LOSING[4], Losing(5)) {}

  lemma RequestIsLostOnOpenPool() returns (trace: seq<State>, labels: seq<Label>)
    ensures Run(trace, labels)
    ensures !Last(trace).closed && 1 in Last(trace).places && Last(trace).places[1] == Dropped
  {
    hide Step;
    var before, sent := RunToIdled();
    var states := seq(6, i requires 0 <= i < 6 => Losing(i));
    Losing0();
    Losing1();
    Losing2();
    Losing3();
    Losing4();
    Continue(before, sent, states, LOSING);
    trace, labels := before + states[1..], sent + LOSING;
  }

  // ---------------------------------------------------------------------------
  // Why a request is lost
  // ---------------------------------------------------------------------------

  lemma {:induction false} StoppedIsClosed(trace: seq<State>, labels: seq<Label>, i: nat)
    requires Run(trace, labels) && i < |trace|
    ensures !trace[i].running ==> trace[i].closed
  {
    hide Apply, Enabled;
    if i > 0 {
      StoppedIsClosed(trace, labels, i - 1);
      assert Step(trace[i - 1], labels[i - 1], trace[i - 1 + 1]);
      OnlyAClosedPoolStops(trace[i - 1], labels[i - 1]);
    }
  }

  lemma OnlyAClosedPoolStops(s: State, l: Label)
    requires Enabled(s, l) && (!s.running ==> s.closed)
    ensures !Apply(s, l).running ==> Apply(s, l).closed
  {
    hide HandleMsg, ActorNext;
  }

  /** On an open pool a request is lost only with its actor, whose idle timer had fired or whose remote side
      had closed. */
  lemma LostOnOpenPool(trace: seq<State>, labels: seq<Label>, i: nat, r: RequestId)
    requires Run(trace, labels) && i < |labels| && Enabled(trace[i], labels[i]) && Loses(trace[i], labels[i], r)
    requires !trace[i].closed
    ensures var s := trace[i];
            if labels[i].Stop? then
              && labels[i].g in s.actors && r in s.actors[labels[i].g].mailbox
              && (s.actors[labels[i].g].phase == Breaking(Expired) || s.actors[labels[i].g].phase == Breaking(Remote))
            else
              && labels[i].Forward? && s.forwarding.value.1 == r
              && (s.actors[s.forwarding.value.0].phase == Stopped(Expired)
                  || s.actors[s.forwarding.value.0].phase == Stopped(Remote))
  {
    hide Apply, ActorsOk, SlotsOk, CountsOk, AnnouncedOk, PlacesOk, TrackedOk;
    RunKeepsInv(trace, labels, i);
    StoppedIsClosed(trace, labels, i);
    NothingDrains(trace[i], if labels[i].Stop? then labels[i].g else trace[i].forwarding.value.0);
  }

  lemma NothingDrains(s: State, g: Generation)
    requires AnnouncedOk(s) && !s.closed && g in s.actors
    ensures s.actors[g].phase.Breaking? ==>
            s.actors[g].phase == Breaking(Expired) || s.actors[g].phase == Breaking(Remote)
    ensures s.actors[g].phase.Stopped? ==> s.actors[g].phase == Stopped(Expired) || s.actors[g].phase == Stopped(Remote)
  {
    assert !Draining(s.actors[g]);
  }

  // ---------------------------------------------------------------------------
  // Which requests can be answered
  // ---------------------------------------------------------------------------

  /** The phases from which an actor comes to its select. */
  predicate Serving(phase: Phase) {
    phase.Connecting? || phase.ReportFailure? || phase.Entering? || phase.Select? || phase.ReportIdle?
  }

  /** The actor will come to its select again, and nothing that it answers first makes it leave. */
  predicate Answerable(a: Actor, r: RequestId) {
    && r in a.mailbox
    && Serving(a.phase)
    && (a.link.Up? && a.remoteClosed ==> a.mailbox[0] == r)
  }

  /** The next step of the actor answers `r`. */
  predicate AnswersNow(a: Actor, r: RequestId) {
    || a.phase == AnswerStale(r)
    || (a.phase.Select? && a.mailbox != [] && a.mailbox[0] == r && !(a.link.Up? && a.remoteClosed))
  }

  /** The requests in front of `r`. */
  function Before(mailbox: seq<RequestId>, r: RequestId): nat {
    if mailbox == [] || mailbox[0] == r then 0 else 1 + Before(mailbox[1..], r)
  }

  lemma {:induction false} BeforeIgnoresLater(mailbox: seq<RequestId>, longer: seq<RequestId>, r: RequestId)
    requires r in mailbox && mailbox <= longer
    ensures Before(longer, r) == Before(mailbox, r)
  {
    if mailbox[0] != r {
      BeforeIgnoresLater(mailbox[1..], longer[1..], r);
    }
  }

  /** The actor is on its way to answering `r`: it will take it, or has taken it to refuse it. */
  predicate Pursues(a: Actor, r: RequestId) {
    Answerable(a, r) || HeldBy(a) == Some(r)
  }

  /** How many requests it has to take before. */
  function Ahead(a: Actor, r: RequestId): nat {
    if HeldBy(a) == Some(r) then 0 else 1 + Before(a.mailbox, r)
  }

  /** How far it is from its select, or from the answer if it has taken `r`. */
  function Distance(phase: Phase): nat {
    match phase
    case Connecting => 3
    case ReportFailure => 2
    case Entering => 1
    case ReportIdle => 1
    case ReportStale(_) => 1
    case _ => 0
  }

  /** How much the pool actor has to do before there is room in its queue. */
  function Crowd(s: State): nat {
    if s.running && |s.queue| >= POOL_CHANNEL_CAPACITY then (if s.forwarding.Some? then 2 else 1) else 0
  }

  /** The actor's next step: fail the connect, report, enter, take the next request, or answer. */
  function Towards(a: Actor, g: Generation): Label {
    match a.phase
    case Connecting => ConnectFailed(g, ConnectError)
    case Entering => Enter(g)
    case Select => Receive(g)
    case AnswerStale(_) => AnswerClosed(g)
    case _ => Report(g)
  }

  predicate Closer(a: Actor, b: Actor, r: RequestId) {
    && Pursues(b, r)
    && (Ahead(b, r) < Ahead(a, r) || (Ahead(b, r) == Ahead(a, r) && Distance(b.phase) < Distance(a.phase)))
  }

  lemma TowardsIsCloser(a: Actor, r: RequestId, g: Generation, closed: bool)
    requires LinkFits(a) && Pursues(a, r) && !AnswersNow(a, r)
    ensures Local(Towards(a, g)) && !Towards(a, g).DropLease? && ActorEnabled(a, Towards(a, g), closed)
    ensures Closer(a, ActorNext(a, Towards(a, g), closed), r)
  {
    hide LinkFits;
    if a.phase.Select? {
      ReceiveIsCloser(a, r, g, closed);
    } else {
      PhaseIsCloser(a, r, g, closed);
    }
  }

  /** Outside the select only the phase moves, and a link that was pending fails. */
  lemma PhaseIsCloser(a: Actor, r: RequestId, g: Generation, closed: bool)
    requires LinkFits(a) && Pursues(a, r) && !AnswersNow(a, r) && !a.phase.Select?
    ensures Local(Towards(a, g)) && !Towards(a, g).DropLease? && ActorEnabled(a, Towards(a, g), closed)
    ensures Closer(a, ActorNext(a, Towards(a, g), closed), r)
  {
    hide AfterReceive, AfterWake, Closer;
    var b := ActorNext(a, Towards(a, g), closed);
    if a.phase.ReportStale? {
      assert b == a.(phase := AnswerStale(r));
      ReportedIsCloser(a, b, r);
    } else {
      assert b.mailbox == a.mailbox && Serving(b.phase) && (b.link.Failed? || b.link == a.link);
      NearerIsCloser(a, b, r);
    }
  }

  lemma ReportedIsCloser(a: Actor, b: Actor, r: RequestId)
    requires a.phase == ReportStale(r) && b.phase == AnswerStale(r)
    ensures Closer(a, b, r)
  {
  }

  lemma NearerIsCloser(a: Actor, b: Actor, r: RequestId)
    requires Answerable(a, r) && b.mailbox == a.mailbox && Serving(b.phase) && Distance(b.phase) < Distance(a.phase)
    requires b.remoteClosed == a.remoteClosed && (b.link.Failed? || b.link == a.link)
    ensures Closer(a, b, r)
  {
  }

  lemma ReceiveIsCloser(a: Actor, r: RequestId, g: Generation, closed: bool)
    requires LinkFits(a) && Pursues(a, r) && !AnswersNow(a, r) && a.phase.Select?
    ensures ActorEnabled(a, Receive(g), closed) && Closer(a, ActorNext(a, Receive(g), closed), r)
  {
    var b := ActorNext(a, Receive(g), closed);
    if a.mailbox[0] != r {
      assert a.mailbox == [a.mailbox[0]] + a.mailbox[1..];
      assert Answerable(b, r) && b.mailbox == a.mailbox[1..];
    } else {
      assert b.phase == ReportStale(r);
    }
  }

  /** The actor of `g` has `r`, and will answer it if it goes on. */
  ghost predicate Pursued(s: State, g: Generation, r: RequestId) {
    g in s.actors && Pursues(s.actors[g], r)
  }

  /** The next step towards the answer, which may be the pool actor's to make room in its queue. */
  function NextStep(s: State, g: Generation): Label
    requires g in s.actors
  {
    var l := Towards(s.actors[g], g);
    if l.Report? && Crowd(s) > 0 then (if s.forwarding.Some? then Forward else Handle) else l
  }

  lemma PursuitGoesOn(s: State, g: Generation, r: RequestId)
    requires Inv(s) && Pursued(s, g, r) && !AnswersNow(s.actors[g], r)
    ensures Enabled(s, NextStep(s, g))
    ensures var s' := Apply(s, NextStep(s, g));
            && Pursued(s', g, r)
            && (Closer(s.actors[g], s'.actors[g], r)
                || (Ahead(s'.actors[g], r) == Ahead(s.actors[g], r) && s'.actors[g].phase == s.actors[g].phase
                    && Crowd(s') < Crowd(s)))
  {
    hide Apply, ActorNext, Pursues, ActorsOk, SlotsOk, CountsOk, AnnouncedOk, PlacesOk, TrackedOk;
    NextStepIsEnabled(s, g, r);
    var l := NextStep(s, g);
    ChangeOfActor(s, l, g);
    ActorsAreOk(s, g);
    if Local(l) {
      TowardsIsCloser(s.actors[g], r, g, s.closed);
    } else {
      RoomIsMade(s, l);
      StillPursues(s.actors[g], Apply(s, l).actors[g], r);
    }
  }

  lemma NextStepIsEnabled(s: State, g: Generation, r: RequestId)
    requires Inv(s) && Pursued(s, g, r) && !AnswersNow(s.actors[g], r)
    ensures Enabled(s, NextStep(s, g))
    ensures Local(NextStep(s, g)) ==> NextStep(s, g) == Towards(s.actors[g], g) && Moves(s, NextStep(s, g), g)
    ensures !Local(NextStep(s, g)) ==> Crowd(s) > 0 && NextStep(s, g) == if s.forwarding.Some? then Forward else Handle
  {
    hide ActorNext, Closer, SlotsOk, CountsOk, AnnouncedOk, PlacesOk, TrackedOk, Pursues, AnswersNow;
    ActorsAreOk(s, g);
    TowardsIsCloser(s.actors[g], r, g, s.closed);
  }

  lemma RoomIsMade(s: State, l: Label)
    requires Inv(s) && Crowd(s) > 0 && Enabled(s, l) && l == if s.forwarding.Some? then Forward else Handle
    ensures Crowd(Apply(s, l)) < Crowd(s)
  {
    hide HandleMsg, CountsOk, AnnouncedOk, PlacesOk, TrackedOk;
    if l.Handle? {
      var e := HandleIsHandled(s);
    }
  }

  lemma StillPursues(a: Actor, b: Actor, r: RequestId)
    requires Pursues(a, r) && a.mailbox <= b.mailbox && b == a.(mailbox := b.mailbox)
    ensures Pursues(b, r) && Ahead(b, r) == Ahead(a, r)
  {
    if HeldBy(a) != Some(r) {
      BeforeIgnoresLater(a.mailbox, b.mailbox, r);
    }
  }

  lemma AnswersNowAnswers(s: State, g: Generation, r: RequestId)
    requires Inv(s) && g in s.actors && AnswersNow(s.actors[g], r)
    ensures Answers(s, Towards(s.actors[g], g), r)
  {
    ActorsAreOk(s, g);
  }

  /** The pursuit as a continuation of the run, up to the step that answers. */
  lemma {:induction false} PursuitAnswers(trace: seq<State>, labels: seq<Label>, g: Generation, r: RequestId)
    returns (t: seq<State>, m: seq<Label>)
    requires Run(trace, labels) && Pursued(Last(trace), g, r)
    ensures Run(t, m) && trace <= t && labels < m && Answers(t[|m| - 1], m[|m| - 1], r)
    decreases Ahead(Last(trace).actors[g], r), Distance(Last(trace).actors[g].phase), Crowd(Last(trace))
  {
    hide Inv, Apply, Enabled, Answers, Pursues, Step, Crowd, NextStep, AnswersNow, Towards;
    var s := Last(trace);
    assert s == trace[|trace| - 1];
    RunKeepsInv(trace, labels, |trace| - 1);
    if AnswersNow(s.actors[g], r) {
      var l := Towards(s.actors[g], g);
      AnswersNowAnswers(s, g, r);
      AnsweringIsEnabled(s, l, r);
      Append(trace, labels, l);
      t, m := trace + [Apply(s, l)], labels + [l];
    } else {
      var l := NextStep(s, g);
      PursuitGoesOn(s, g, r);
      Append(trace, labels, l);
      t, m := PursuitAnswers(trace + [Apply(s, l)], labels + [l], g, r);
    }
  }

  lemma AnsweringIsEnabled(s: State, l: Label, r: RequestId)
    requires Answers(s, l, r)
    ensures Enabled(s, l)
  {
  }

  /** The run can go on, from its state `i`, to a step that answers `r`. */
  ghost predicate CanBeAnswered(trace: seq<State>, labels: seq<Label>, i: nat, r: RequestId)
    requires i <= |labels| < |trace|
  {
    exists t, m :: Extends(trace, labels, i, t, m) && |m| > i && Answers(t[|m| - 1], m[|m| - 1], r)
  }

  /** The actor neither answers `r` now nor can any more. */
  predicate PastAnswering(a: Actor, r: RequestId) {
    HeldBy(a) != Some(r) && (r in a.mailbox ==> !Answerable(a, r))
  }

  lemma PastAnsweringStays(a: Actor, l: Label, closed: bool, r: RequestId)
    requires LinkFits(a) && Distinct(a.mailbox) && PastAnswering(a, r)
    requires Local(l) && ActorEnabled(a, l, closed)
    ensures PastAnswering(ActorNext(a, l, closed), r) && Distinct(ActorNext(a, l, closed).mailbox)
    ensures !l.Stop? && r in a.mailbox ==> r in ActorNext(a, l, closed).mailbox
  {
    hide ActorNext;
    if l.Receive? {
      ReceivePastAnswering(a, l, closed, r);
    } else if l.AnswerClosed? || l.Stop? {
      EndingPastAnswering(a, l, closed, r);
    } else {
      KeepsItsRequests(a, l, closed);
      ServesNoMore(a, l, closed);
    }
  }

  /** An actor that no longer serves never does again, and a closed connection stays closed. */
  lemma ServesNoMore(a: Actor, l: Label, closed: bool)
    requires Local(l) && ActorEnabled(a, l, closed) && (a.phase.Connecting? ==> a.link.Pending?)
    requires !l.Receive? && !l.AnswerClosed? && !l.Stop?
    ensures Serving(ActorNext(a, l, closed).phase) ==> Serving(a.phase)
    ensures a.link.Up? && a.remoteClosed ==> ActorNext(a, l, closed).link.Up? && ActorNext(a, l, closed).remoteClosed
  {
    hide AfterReceive;
    if l.Report? {
      hide AfterWake;
    } else if l.Wake? {
      hide AfterReport;
    } else {
      hide AfterReport, AfterWake;
    }
  }

  lemma ReceivePastAnswering(a: Actor, l: Label, closed: bool, r: RequestId)
    requires LinkFits(a) && Distinct(a.mailbox) && PastAnswering(a, r) && l.Receive? && ActorEnabled(a, l, closed)
    ensures PastAnswering(ActorNext(a, l, closed), r) && Distinct(ActorNext(a, l, closed).mailbox)
    ensures r in a.mailbox ==> r in ActorNext(a, l, closed).mailbox
  {
    assert a.mailbox == [a.mailbox[0]] + a.mailbox[1..];
  }

  lemma EndingPastAnswering(a: Actor, l: Label, closed: bool, r: RequestId)
    requires (l.AnswerClosed? || l.Stop?) && Distinct(a.mailbox) && ActorEnabled(a, l, closed)
    ensures PastAnswering(ActorNext(a, l, closed), r) && Distinct(ActorNext(a, l, closed).mailbox)
    ensures l.AnswerClosed? ==> ActorNext(a, l, closed).mailbox == a.mailbox
  {
  }

  lemma MailedIsInMailbox(s: State, g: Generation, r: RequestId)
    requires Inv(s) && r in s.places && s.places[r] == Mailed(g)
    ensures g in s.actors && r in s.actors[g].mailbox && HeldBy(s.actors[g]) != Some(r)
    ensures ActorOk(s.actors[g]) && Distinct(s.actors[g].mailbox)
  {
    assert At(s, r, s.places[r]);
    assert !At(s, r, Held(g));
  }

  /** The request waits where it cannot be answered any more, or is lost already. */
  ghost predicate Doomed(s: State, r: RequestId) {
    && r in s.places
    && (s.places[r].Dropped?
        || (s.places[r].Mailed? && s.places[r].generation in s.actors
            && !Answerable(s.actors[s.places[r].generation], r)))
  }

  lemma StaysDoomed(s: State, l: Label, r: RequestId)
    requires Inv(s) && Enabled(s, l) && Doomed(s, r)
    ensures Doomed(Apply(s, l), r) && !Answers(s, l, r)
  {
    hide Apply, ActorNext, HandleMsg, Inv, Answers, Answerable;
    if s.places[r].Mailed? {
      MailedStaysDoomed(s, l, s.places[r].generation, r);
    } else {
      StepFollows(s, l, r);
    }
    if Answers(s, l, r) {
      AnsweringTakesFromPlace(s, l, r);
    }
  }

  lemma MailedStaysDoomed(s: State, l: Label, g: Generation, r: RequestId)
    requires Inv(s) && Enabled(s, l) && r in s.places && s.places[r] == Mailed(g)
    requires g in s.actors && !Answerable(s.actors[g], r)
    ensures Doomed(Apply(s, l), r)
  {
    hide Apply, ActorNext, HandleMsg, Inv, Answerable, Enabled;
    MailedIsInMailbox(s, g, r);
    ChangeOfActor(s, l, g);
    StepKeepsInv(s, l);
    if Moves(s, l, g) && l.Stop? {
      StepDrops(s, l, r);
    } else {
      if Moves(s, l, g) {
        PastAnsweringStays(s.actors[g], l, s.closed, r);
      } else {
        BehindOthers(s.actors[g], Apply(s, l).actors[g], r);
      }
      InMailboxIsMailed(Apply(s, l), g, r);
    }
  }

  /** Requests that come later do not help. */
  lemma BehindOthers(a: Actor, b: Actor, r: RequestId)
    requires a.mailbox <= b.mailbox && b == a.(mailbox := b.mailbox) && r in a.mailbox && !Answerable(a, r)
    ensures r in b.mailbox && !Answerable(b, r)
  {
  }

  lemma InMailboxIsMailed(s: State, g: Generation, r: RequestId)
    requires Inv(s) && g in s.actors && r in s.actors[g].mailbox
    ensures r in s.places && s.places[r] == Mailed(g)
  {
    assert At(s, r, Mailed(g));
  }

  /** So the phase decides: a request mailed to an actor past the point of no return is never answered, for
      the rest of the run. */
  lemma {:induction false} DoomedIsNeverAnswered(trace: seq<State>, labels: seq<Label>, i: nat, j: nat, r: RequestId)
    requires Run(trace, labels) && i <= j < |trace| && Doomed(trace[i], r)
    ensures Doomed(trace[j], r) && (j < |labels| ==> !Answers(trace[j], labels[j], r))
  {
    hide Apply, Enabled, Inv, Doomed, Answers;
    RunKeepsInv(trace, labels, j);
    if i < j {
      DoomedIsNeverAnswered(trace, labels, i, j - 1, r);
      RunKeepsInv(trace, labels, j - 1);
      assert Step(trace[j - 1], labels[j - 1], trace[j - 1 + 1]);
      StaysDoomed(trace[j - 1], labels[j - 1], r);
    }
    if j < |labels| {
      assert Step(trace[j], labels[j], trace[j + 1]);
      StaysDoomed(trace[j], labels[j], r);
    }
  }

  lemma DoomedStaysInExtension(trace: seq<State>, labels: seq<Label>, i: nat, t: seq<State>, m: seq<Label>,
                               r: RequestId)
    requires Run(trace, labels) && i < |trace| && Doomed(trace[i], r) && Extends(trace, labels, i, t, m) && |m| > i
    ensures !Answers(t[|m| - 1], m[|m| - 1], r)
  {
    hide Step, Answers, Doomed;
    assert t[i] == trace[..i + 1][i];
    DoomedIsNeverAnswered(t, m, i, |m| - 1, r);
  }

  /** A request in a mailbox can still be answered if and only if its actor has not yet begun to end, and,
      once the remote side has closed, only if it is the next one. */
  lemma AnsweredExactlyWhen(trace: seq<State>, labels: seq<Label>, i: nat, g: Generation, r: RequestId)
    requires Run(trace, labels) && i < |trace| && r in trace[i].places && trace[i].places[r] == Mailed(g)
    ensures g in trace[i].actors && r in trace[i].actors[g].mailbox
    ensures CanBeAnswered(trace, labels, i, r) <==> Answerable(trace[i].actors[g], r)
  {
    hide Step, Answers, Answerable, Inv;
    RunKeepsInv(trace, labels, i);
    MailedIsInMailbox(trace[i], g, r);
    if Answerable(trace[i].actors[g], r) {
      PrefixIsRun(trace, labels, i);
      var t, m := PursuitAnswers(trace[..i + 1], labels[..i], g, r);
      assert Extends(trace, labels, i, t, m);
    } else {
      forall t, m | Extends(trace, labels, i, t, m) && |m| > i ensures !Answers(t[|m| - 1], m[|m| - 1], r) {
        DoomedStaysInExtension(trace, labels, i, t, m, r);
      }
    }
  }
}
