// What the pool and its actors answer, told by what happened before in the run: which connect succeeded or
// failed, and how, and which remote side closed (src/pool.rs:396-433, 555-603).

module PoolAnswers {
  import opened Wrappers
  import opened PoolTable
  import opened PoolProtocol
  import opened PoolInvariant
  import opened PoolSteps
  import opened PoolTheorems
  import opened PoolShutdown

  // ---------------------------------------------------------------------------
  // The connection actor
  // ---------------------------------------------------------------------------

  /** Step `l` is among the first `i`. */
  ghost predicate Happened(labels: seq<Label>, i: nat, l: Label) {
    exists k :: 0 <= k < i && k < |labels| && labels[k] == l
  }

  lemma HappenedNext(labels: seq<Label>, i: nat, l: Label)
    requires i < |labels|
    ensures Happened(labels, i + 1, l) <==> Happened(labels, i, l) || labels[i] == l
  {
    if Happened(labels, i, l) {
      var k :| 0 <= k < i && k < |labels| && labels[k] == l;
      assert k < i + 1;
    }
  }

  /** The connection of `g` is as the steps have left it. */
  ghost predicate HasHistory(labels: seq<Label>, i: nat, g: Generation, link: Link, remoteClosed: bool) {
    && (link.Up? <==> Happened(labels, i, ConnectUp(g)))
    && (forall e :: link == Failed(e) <==> Happened(labels, i, ConnectFailed(g, e)))
    && (remoteClosed <==> Happened(labels, i, RemoteClose(g)))
  }

  ghost predicate History(s: State, labels: seq<Label>, i: nat, g: Generation) {
    if g in s.actors then HasHistory(labels, i, g, s.actors[g].link, s.actors[g].remoteClosed)
    else HasHistory(labels, i, g, Pending, false)
  }

  /** Of all steps only the outcome of the connect and the remote side's close touch the connection. */
  lemma ConnectionMoves(a: Actor, l: Label, closed: bool, g: Generation)
    requires LinkFits(a) && Local(l) && ActorEnabled(a, l, closed) && (!l.DropLease? ==> l.g == g)
    ensures var b := ActorNext(a, l, closed);
            && (if l == ConnectUp(g) then a.link.Pending? && b.link.Up?
                else if l.ConnectFailed? then a.link.Pending? && b.link == Failed(l.error)
                else b.link == a.link)
            && (b.remoteClosed <==> a.remoteClosed || l == RemoteClose(g))
  {
  }

  lemma StepKeepsHistory(s: State, labels: seq<Label>, i: nat, g: Generation)
    requires Inv(s) && i < |labels| && Enabled(s, labels[i]) && History(s, labels, i, g)
    ensures History(Apply(s, labels[i]), labels, i + 1, g)
  {
    hide Apply, ActorNext, ActorEnabled, Happened, ActorsOk, SlotsOk, CountsOk, AnnouncedOk, PlacesOk, TrackedOk;
    var (l, s') := (labels[i], Apply(s, labels[i]));
    HappenedNext(labels, i, ConnectUp(g));
    HappenedNext(labels, i, RemoteClose(g));
    forall e ensures Happened(labels, i + 1, ConnectFailed(g, e)) <==>
                     Happened(labels, i, ConnectFailed(g, e)) || l == ConnectFailed(g, e) {
      HappenedNext(labels, i, ConnectFailed(g, e));
    }
    if g in s.actors || g in s'.actors {
      ChangeOfActor(s, l, g);
      if g in s.actors && Moves(s, l, g) {
        ActorsAreOk(s, g);
        ConnectionMoves(s.actors[g], l, s.closed, g);
      }
    }
  }

  lemma {:induction false} HistoryInRuns(trace: seq<State>, labels: seq<Label>, i: nat, g: Generation)
    requires Run(trace, labels) && i < |trace|
    ensures History(trace[i], labels, i, g)
  {
    hide Apply, Enabled, Inv;
    if i > 0 {
      hide History;
      HistoryInRuns(trace, labels, i - 1, g);
      RunKeepsInv(trace, labels, i - 1);
      assert Step(trace[i - 1], labels[i - 1], trace[i - 1 + 1]);
      StepKeepsHistory(trace[i - 1], labels, i - 1, g);
    }
  }

  /** What becomes of the request that an actor takes from its mailbox. While its connect has succeeded and
      the remote side has not closed, it gets a lease, which is then outstanding; if the connect failed, it
      gets the very error of that failure; if the remote side has closed, it is held back. */
  lemma TakenRequestGets(trace: seq<State>, labels: seq<Label>, i: nat, g: Generation)
    requires Run(trace, labels) && i < |labels| && labels[i] == Receive(g)
    ensures g in trace[i].actors && trace[i].actors[g].mailbox != []
    ensures var (r, after) := (trace[i].actors[g].mailbox[0], trace[i + 1]);
            && r in trace[i].places && trace[i].places[r] == Mailed(g) && r in after.places
            && (after.places[r] == Answered(Lease(g)) <==>
                  Happened(labels, i, ConnectUp(g)) && !Happened(labels, i, RemoteClose(g)))
            && (after.places[r] == Answered(Lease(g)) <==> r in after.leases && after.leases[r] == g)
            && (forall e :: after.places[r] == Answered(Refusal(e)) <==> Happened(labels, i, ConnectFailed(g, e)))
            && (after.places[r] == Held(g) <==>
                  Happened(labels, i, ConnectUp(g)) && Happened(labels, i, RemoteClose(g)))
  {
    hide Happened, Inv;
    RunKeepsInv(trace, labels, i);
    RunKeepsInv(trace, labels, i + 1);
    HistoryInRuns(trace, labels, i, g);
    assert Step(trace[i], labels[i], trace[i + 1]);
    ReceiveGets(trace[i], trace[i + 1], g);
  }

  lemma ReceiveGets(s: State, s': State, g: Generation)
    requires Inv(s) && Inv(s') && Step(s, Receive(g), s')
    ensures g in s.actors && s.actors[g].mailbox != []
    ensures var (r, a) := (s.actors[g].mailbox[0], s.actors[g]);
            && r in s.places && s.places[r] == Mailed(g) && r in s'.places
            && s'.places[r] == (match a.link
                                case Up => if a.remoteClosed then Held(g) else Answered(Lease(g))
                                case Failed(e) => Answered(Refusal(e))
                                case Pending => Dropped)
            && (s'.places[r] == Answered(Lease(g)) <==> r in s'.leases && s'.leases[r] == g)
  {
    hide ActorNext, SlotsOk, AnnouncedOk, TrackedOk;
    ActorsAreOk(s, g);
    assert At(s, s.actors[g].mailbox[0], Mailed(g));
  }

  /** And nothing else answers a request in a mailbox: it is taken by its own actor, first come first served. */
  lemma OnlyItsActorAnswers(trace: seq<State>, labels: seq<Label>, i: nat, g: Generation, r: RequestId)
    requires Run(trace, labels) && i < |labels| && r in trace[i].places && trace[i].places[r] == Mailed(g)
    ensures r in trace[i + 1].places
    ensures trace[i + 1].places[r] != Mailed(g) ==>
              && g in trace[i].actors && r in trace[i].actors[g].mailbox
              && (labels[i] == Stop(g) || (labels[i] == Receive(g) && trace[i].actors[g].mailbox[0] == r))
  {
    hide Inv;
    RunKeepsInv(trace, labels, i);
    assert Step(trace[i], labels[i], trace[i + 1]);
    LeavesMailboxBy(trace[i], labels[i], g, r);
  }

  lemma LeavesMailboxBy(s: State, l: Label, g: Generation, r: RequestId)
    requires Inv(s) && Enabled(s, l) && r in s.places && s.places[r] == Mailed(g)
    ensures g in s.actors && r in s.actors[g].mailbox
    ensures r in Apply(s, l).places
    ensures Apply(s, l).places[r] != Mailed(g) ==> l == Stop(g) || (l == Receive(g) && s.actors[g].mailbox[0] == r)
  {
    hide Apply, ActorNext, HandleMsg, Inv, Enabled;
    assert Inv(s) ==> PlacesOk(s) by { InvHasPlaces(s); }
    assert At(s, r, Mailed(g));
    StepFollows(s, l, r);
    ChangeOfActor(s, l, g);
    StepKeepsInv(s, l);
    if r in Apply(s, l).actors[g].mailbox {
      InvHasPlaces(Apply(s, l));
      assert At(Apply(s, l), r, Mailed(g));
    } else {
      TakenOrStopped(s.actors[g], l, s.closed, g, r);
    }
  }

  lemma InvHasPlaces(s: State)
    requires Inv(s)
    ensures PlacesOk(s)
  {
  }

  lemma TakenOrStopped(a: Actor, l: Label, closed: bool, g: Generation, r: RequestId)
    requires Local(l) && ActorEnabled(a, l, closed) && (!l.DropLease? ==> l.g == g)
    requires r in a.mailbox && r !in ActorNext(a, l, closed).mailbox
    ensures l == Stop(g) || (l == Receive(g) && a.mailbox[0] == r)
  {
    if l.Receive? {
      assert a.mailbox == [a.mailbox[0]] + a.mailbox[1..];
    } else if !l.AnswerClosed? && !l.Stop? {
      KeepsItsRequests(a, l, closed);
    }
  }

  /** A request held back is refused as closed, after the pool has been told. */
  lemma HeldRequestGets(trace: seq<State>, labels: seq<Label>, i: nat, g: Generation)
    requires Run(trace, labels) && i < |labels| && labels[i] == AnswerClosed(g)
    ensures g in trace[i].actors && trace[i].actors[g].phase.AnswerStale?
    ensures var r := trace[i].actors[g].phase.req;
            && r in trace[i].places && trace[i].places[r] == Held(g)
            && r in trace[i + 1].places && trace[i + 1].places[r] == Answered(Refusal(ClosedBeforeReuse))
  {
    hide ActorNext;
    RunKeepsInv(trace, labels, i);
    assert Step(trace[i], labels[i], trace[i + 1]);
    assert At(trace[i], trace[i].actors[g].phase.req, Held(g));
  }

  // ---------------------------------------------------------------------------
  // The pool actor
  // ---------------------------------------------------------------------------

  /** Where the request at the head of the queue goes: behind the others in its peer's mailbox, if the slot's
      actor is there and has fewer than 64 requests; to a new actor, if there is none and there is room or
      something idle; else it is refused, as `Busy` exactly for a full mailbox. */
  lemma HandledRequestGoes(trace: seq<State>, labels: seq<Label>, i: nat, r: RequestId, p: Peer)
    requires Run(trace, labels) && i < |labels| && labels[i] == Handle
    requires trace[i].queue != [] && trace[i].queue[0] == Request(r, p)
    ensures r in trace[i + 1].places
    ensures var (s, s') := (trace[i], trace[i + 1]);
            if p in s.table.connections && s.table.connections[p] in s.actors
               && !s.actors[s.table.connections[p]].phase.Stopped? then
              var g := s.table.connections[p];
              if |s.actors[g].mailbox| < 64
              then s'.places[r] == Mailed(g) && g in s'.actors && s'.actors[g].mailbox == s.actors[g].mailbox + [r]
              else s'.places[r] == Answered(Refusal(Busy)) && s'.actors == s.actors
            else if p in s.table.connections || |s.table.connections| < s.limit || s.table.idle != [] then
              && s'.places[r] == Forwarding(s.table.next) && s'.forwarding == Some((s.table.next, r))
              && s.table.next in s'.actors && s'.actors[s.table.next].id == p
              && p in s'.table.connections && s'.table.connections[p] == s.table.next
            else s'.places[r] == Answered(Refusal(TooManyConnections)) && s'.actors == s.actors
  {
    RunKeepsInv(trace, labels, i);
    assert Step(trace[i], labels[i], trace[i + 1]);
    HandledGoes(trace[i], r, p);
  }

  lemma HandledGoes(s: State, r: RequestId, p: Peer)
    requires SlotsOk(s) && Enabled(s, Handle) && s.queue[0] == Request(r, p)
    ensures var s' := ApplyHandle(s);
            && r in s'.places
            && if p in s.table.connections && !s.actors[s.table.connections[p]].phase.Stopped? then
                 var g := s.table.connections[p];
                 if |s.actors[g].mailbox| < 64
                 then s'.places[r] == Mailed(g) && g in s'.actors && s'.actors[g].mailbox == s.actors[g].mailbox + [r]
                 else s'.places[r] == Answered(Refusal(Busy)) && s'.actors == s.actors
               else if p in s.table.connections || |s.table.connections| < s.limit || s.table.idle != [] then
                 && s'.places[r] == Forwarding(s.table.next) && s'.forwarding == Some((s.table.next, r))
                 && s.table.next in s'.actors && s'.actors[s.table.next].id == p
                 && p in s'.table.connections && s'.table.connections[p] == s.table.next
               else s'.places[r] == Answered(Refusal(TooManyConnections)) && s'.actors == s.actors
  {
    var outcome := SlotOutcome(s, p);
    var (t, e) := HandleMsg(s.table, s.limit, s.queue[0], outcome);
    RequestGets(s.table, s.limit, r, p, outcome);
    HandleFrame(s.table, s.limit, s.queue[0], outcome);
    hide HandleMsg;
    assert e.Spawned? ==> Matches(t, p, s.table.next);
  }

  /** The effect of a request, for every state of its peer's slot and mailbox. */
  lemma RequestGets(t: Table, limit: nat, req: RequestId, id: Peer, outcome: SendOutcome)
    requires TableInv(t, limit)
    ensures HandleMsg(t, limit, Request(req, id), outcome).1 ==
            if id in t.connections && outcome.Accepted? then Forwarded(req, t.connections[id])
            else if id in t.connections && outcome.MailboxFull? then Replied(req, Busy)
            else if id in t.connections || |t.connections| < limit || t.idle != [] then Spawned(req, id, t.next)
            else Replied(req, TooManyConnections)
  {
    RefusedMeansFullAndNothingIdle(t, limit, req, id, outcome);
    SpawnsExactlyWhen(t, limit, Request(req, id), outcome);
    HandleFrame(t, limit, Request(req, id), outcome);
  }
}
