// The callers' side of the pool: the retry loops of src/pool.rs:704-765 against any sequence of
// replies, and the double-checked start of the pool actor (src/pool.rs:275-303) against any
// interleaving of callers.

module PoolClient {
  import opened Wrappers
  import opened PoolTable

  const OPEN_STREAM_RETRIES: nat := 2

  /** What became of one request: the pool was gone, the reply channel was dropped, or an answer came. */
  datatype Reply = NotSent | Abandoned | Granted(generation: Generation) | Refused(error: PoolError)

  function Settle(reply: Reply): Result<Generation, PoolError> {
    match reply
    case NotSent => Err(PoolShutdown)
    case Abandoned => Err(PoolShutdown)
    case Granted(g) => Ok(g)
    case Refused(e) => Err(e)
  }

  predicate TwoReplies(replies: seq<Reply>) {
    |replies| == OPEN_STREAM_RETRIES
  }

  /** The reply that decides a round on an open pool. */
  function LastReply(replies: seq<Reply>): Reply
    requires TwoReplies(replies)
  {
    replies[if replies[0] == Refused(ClosedBeforeReuse) then 1 else 0]
  }

  /** `get_or_connect`: one request, and a second one exactly when the first was refused as closed before
      reuse. The last reply is passed on as it is, a lost one as `PoolShutdown`. The error after the loop is
      never reached. */
  method GetOrConnect(open: bool, replies: seq<Reply>) returns (result: Result<Generation, PoolError>, requests: nat)
    requires TwoReplies(replies)
    ensures requests <= 2
    ensures requests == 0 <==> !open
    ensures requests == 2 <==> open && replies[0] == Refused(ClosedBeforeReuse)
    ensures requests == 0 ==> result == Err(PoolShutdown)
    ensures requests > 0 ==>
              match replies[requests - 1]
              case Refused(error) => result == Err(error)
              case Granted(generation) => result == Ok(generation)
              case NotSent => result == Err(PoolShutdown)
              case Abandoned => result == Err(PoolShutdown)
  {
    requests := 0;
    if !open {
      return Err(PoolShutdown), 0;
    }
    var attempt := 0;
    while attempt < OPEN_STREAM_RETRIES
      invariant requests == attempt < OPEN_STREAM_RETRIES
      invariant attempt == 1 ==> replies[0] == Refused(ClosedBeforeReuse)
    {
      var reply := replies[attempt];
      requests := requests + 1;
      if !(reply == Refused(ClosedBeforeReuse) && attempt + 1 < OPEN_STREAM_RETRIES) {
        return Settle(reply), requests;
      }
      attempt := attempt + 1;
    }
    assert false;
    result := Err(ClosedBeforeReuse);
  }

  /** One round of `open_stream`: whether the pool is open, the replies to its requests, and whether a
      stream opens on the lease it gets. */
  datatype Round = Round(open: bool, replies: seq<Reply>, opens: bool)

  /** How many requests a round sends. */
  function Sent(round: Round): nat
    requires TwoReplies(round.replies)
  {
    if !round.open then 0 else if round.replies[0] == Refused(ClosedBeforeReuse) then 2 else 1
  }

  /** What a round gets: the reply to its last request. */
  function Outcome(round: Round): Result<Generation, PoolError>
    requires TwoReplies(round.replies)
  {
    if Sent(round) == 0 then Err(PoolShutdown) else Settle(round.replies[Sent(round) - 1])
  }

  datatype StreamError = PoolFailed(error: PoolError) | Aborted(generation: Generation) | NeverTried

  /** `open_stream`: at most two rounds and four requests. Every lease on which no stream opened has been
      invalidated by the time the next round starts or the error returns, and nothing else has; the
      error is that of the last round, never the fallback. */
  method OpenStream(rounds: seq<Round>)
    returns (result: Result<Generation, StreamError>, requests: nat, invalidated: seq<Generation>, tried: nat)
    requires |rounds| == OPEN_STREAM_RETRIES && forall i :: 0 <= i < |rounds| ==> TwoReplies(rounds[i].replies)
    ensures 1 <= tried <= 2 && requests == Sent(rounds[0]) + (if tried == 2 then Sent(rounds[1]) else 0) <= 4
    ensures tried == 2 <==> Outcome(rounds[0]).Ok? && !rounds[0].opens
    ensures |invalidated| == if Outcome(rounds[tried - 1]).Ok? && !rounds[tried - 1].opens then tried else tried - 1
    ensures forall i :: 0 <= i < |invalidated| ==> Outcome(rounds[i]) == Ok(invalidated[i]) && !rounds[i].opens
    ensures forall i :: 0 <= i < |invalidated| ==>
              rounds[i].open && LastReply(rounds[i].replies) == Granted(invalidated[i])
    ensures !rounds[tried - 1].open ==> result == Err(PoolFailed(PoolShutdown))
    ensures rounds[tried - 1].open ==>
              match LastReply(rounds[tried - 1].replies)
              case Refused(error) => result == Err(PoolFailed(error))
              case Granted(generation) =>
                result == if rounds[tried - 1].opens then Ok(generation) else Err(Aborted(generation))
              case NotSent => result == Err(PoolFailed(PoolShutdown))
              case Abandoned => result == Err(PoolFailed(PoolShutdown))
  {
    requests, invalidated, tried := 0, [], 0;
    var lastError: Option<StreamError> := None;
    var attempt := 0;
    while attempt < OPEN_STREAM_RETRIES
      invariant attempt <= OPEN_STREAM_RETRIES && tried == |invalidated| == attempt
      invariant requests == (if attempt > 0 then Sent(rounds[0]) else 0) + (if attempt > 1 then Sent(rounds[1]) else 0)
      invariant forall i :: 0 <= i < attempt ==> Outcome(rounds[i]) == Ok(invalidated[i]) && !rounds[i].opens
      invariant forall i :: 0 <= i < attempt ==>
                  rounds[i].open && LastReply(rounds[i].replies) == Granted(invalidated[i])
      invariant attempt > 0 ==> lastError == Some(Aborted(invalidated[attempt - 1]))
    {
      var round := rounds[attempt];
      tried := tried + 1;
      var lease, sent := GetOrConnect(round.open, round.replies);
      requests := requests + sent;
      if lease.Err? {
        return Err(PoolFailed(lease.error)), requests, invalidated, tried;
      }
      if round.opens {
        return Ok(lease.value), requests, invalidated, tried;
      }
      invalidated := invalidated + [lease.value];
      lastError := Some(Aborted(lease.value));
      attempt := attempt + 1;
      if attempt == OPEN_STREAM_RETRIES {
        break;
      }
    }
    result := Err(if lastError.Some? then lastError.value else NeverTried);
  }
}

/** The pool actor is started by the first caller that needs it (src/pool.rs:275-303). */
module PoolRuntime {

  type Caller = nat

  /** Where a caller of `tx` is. */
  datatype Pc = Unlocked | WantsLock | Locked | Starting | Done(ok: bool)

  datatype State = State(closed: bool, started: bool, actors: nat, lock: set<Caller>, pcs: map<Caller, Pc>)

  datatype Label =
    | Close
    | Enter(c: Caller)
    | Check(c: Caller)
    | Acquire(c: Caller)
    | Recheck(c: Caller)
    | Publish(c: Caller)

  predicate At(s: State, c: Caller, pc: Pc) {
    c in s.pcs && s.pcs[c] == pc
  }

  predicate Enabled(s: State, l: Label) {
    match l
    case Close => true
    case Enter(c) => c !in s.pcs
    case Check(c) => At(s, c, Unlocked)
    case Acquire(c) => At(s, c, WantsLock) && s.lock == {}
    case Recheck(c) => At(s, c, Locked)
    case Publish(c) => At(s, c, Starting)
  }

  function Apply(s: State, l: Label): State {
    match l
    case Close => s.(closed := true)
    case Enter(c) => s.(pcs := s.pcs[c := Unlocked])
    case Check(c) =>
      s.(pcs := s.pcs[c := if s.closed then Done(false) else if s.started then Done(true) else WantsLock])
    case Acquire(c) => s.(lock := {c}, pcs := s.pcs[c := Locked])
    case Recheck(c) =>
      if s.closed || s.started then s.(lock := {}, pcs := s.pcs[c := Done(!s.closed)])
      else s.(actors := s.actors + 1, pcs := s.pcs[c := Starting])
    case Publish(c) => s.(started := true, lock := {}, pcs := s.pcs[c := Done(true)])
  }

  /** The lock is held by the one caller inside the critical section, and an actor exists exactly when
      it has been published or is about to be. */
  ghost predicate Inv(s: State) {
    && (forall c :: c in s.lock <==> c in s.pcs && (s.pcs[c].Locked? || s.pcs[c].Starting?))
    && (forall c, d :: c in s.lock && d in s.lock ==> c == d)
    && (forall c :: c in s.pcs && s.pcs[c].Starting? ==> !s.started && s.actors == 1)
    && (s.started ==> s.actors == 1)
    && (!s.started && s.lock == {} ==> s.actors == 0)
    && (forall c :: c in s.pcs && s.pcs[c].Locked? && !s.started ==> s.actors == 0)
    && (forall c :: c in s.pcs && s.pcs[c] == Done(true) ==> s.started)
    && (forall c :: c in s.pcs && s.pcs[c] == Done(false) ==> s.closed)
  }

  ghost predicate Run(trace: seq<State>, labels: seq<Label>) {
    && |trace| == |labels| + 1
    && trace[0] == State(false, false, 0, {}, map[])
    && forall i :: 0 <= i < |labels| ==> Enabled(trace[i], labels[i]) && trace[i + 1] == Apply(trace[i], labels[i])
  }

  lemma StepKeepsInv(s: State, l: Label)
    requires Inv(s) && Enabled(s, l)
    ensures Inv(Apply(s, l))
  {
    match l
    case Close =>
    case Enter(c) =>
    case Check(c) =>
    case Acquire(c) =>
    case Recheck(c) =>
    case Publish(c) =>
  }

  lemma {:induction false} RunKeepsInv(trace: seq<State>, labels: seq<Label>, i: nat)
    requires Run(trace, labels) && i < |trace|
    ensures Inv(trace[i])
  {
    if i > 0 {
      RunKeepsInv(trace, labels, i - 1);
      assert trace[i - 1 + 1] == Apply(trace[i - 1], labels[i - 1]);
      StepKeepsInv(trace[i - 1], labels[i - 1]);
    }
  }

  lemma LockIsSmall(s: State)
    requires Inv(s)
    ensures |s.lock| <= 1 && s.actors <= 1
  {
    if s.lock != {} {
      var c :| c in s.lock;
      assert s.lock == {c};
      assert At(s, c, Locked) || At(s, c, Starting);
    }
  }

  /** However callers race, at most one pool actor is ever started, a caller that succeeds finds it
      started, and publishing it never finds another one there. */
  lemma OnePoolActor(trace: seq<State>, labels: seq<Label>, i: nat, c: Caller)
    requires Run(trace, labels) && i < |trace|
    ensures trace[i].actors <= 1 && |trace[i].lock| <= 1
    ensures At(trace[i], c, Done(true)) ==> trace[i].started && trace[i].actors == 1
    ensures At(trace[i], c, Done(false)) ==> trace[i].closed
    ensures i < |labels| && labels[i] == Publish(c) ==> !trace[i].started
  {
    RunKeepsInv(trace, labels, i);
    LockIsSmall(trace[i]);
    if i < |labels| {
      assert Enabled(trace[i], labels[i]);
    }
  }

  /** A caller is turned away exactly if it finds the pool closed at the check that decides: the first, when
      an actor is started already, or the one under the lock. A caller that starts the actor succeeds. */
  lemma CallerSucceedsExactlyWhen(trace: seq<State>, labels: seq<Label>, i: nat, c: Caller, ok: bool)
    requires Run(trace, labels) && i < |labels| && c in trace[i].pcs && !trace[i].pcs[c].Done?
    requires At(trace[i + 1], c, Done(ok))
    ensures labels[i] in {Check(c), Recheck(c), Publish(c)}
    ensures labels[i] == Publish(c) ==> ok && !trace[i].started
    ensures labels[i] != Publish(c) ==> (ok <==> !trace[i].closed) && (ok ==> trace[i].started)
  {
    RunKeepsInv(trace, labels, i);
    assert trace[i + 1] == Apply(trace[i], labels[i]);
  }
}
