// Concrete runs of the pool protocol: the inputs on which a promise fails.

module PoolRuns {
  import opened Wrappers
  import opened PoolTable
  import opened PoolProtocol

  function Last(trace: seq<State>): State
    requires trace != []
  {
    trace[|trace| - 1]
  }

  /** A run goes on as far as its next states are steps. */
  lemma {:induction false} Continue(trace: seq<State>, labels: seq<Label>, states: seq<State>, more: seq<Label>)
    requires Run(trace, labels) && |states| == |more| + 1 && states[0] == Last(trace)
    requires forall i :: 0 <= i < |more| ==> Step(states[i], more[i], states[i + 1])
    ensures Run(trace + states[1..], labels + more)
    ensures Last(trace + states[1..]) == Last(states)
  {
    hide Step;
    var (t, l) := (trace + states[1..], labels + more);
    forall i | 0 <= i < |l| ensures Step(t[i], l[i], t[i + 1]) {
      if i >= |labels| {
        var k := i - |labels|;
        assert t[i] == states[k] && t[i + 1] == states[k + 1] && l[i] == more[k];
      }
    }
  }

  lemma {:induction false} Append(trace: seq<State>, labels: seq<Label>, l: Label)
    requires Run(trace, labels) && Enabled(Last(trace), l)
    ensures Run(trace + [Apply(Last(trace), l)], labels + [l])
  {
    hide Enabled, Apply;
    var (t, m) := (trace + [Apply(Last(trace), l)], labels + [l]);
    forall i | 0 <= i < |m| ensures Step(t[i], m[i], t[i + 1]) {
      assert i < |labels| ==> Step(trace[i], labels[i], trace[i + 1]);
    }
  }

  /** `t` and `m` are a run that is like the given one for its first `i` steps. */
  ghost predicate Extends(trace: seq<State>, labels: seq<Label>, i: nat, t: seq<State>, m: seq<Label>)
    requires i <= |labels| < |trace|
  {
    Run(t, m) && trace[..i + 1] <= t && labels[..i] <= m
  }

  lemma PrefixIsRun(trace: seq<State>, labels: seq<Label>, i: nat)
    requires Run(trace, labels) && i <= |labels|
    ensures Run(trace[..i + 1], labels[..i]) && Last(trace[..i + 1]) == trace[i]
  {
    hide Step;
  }

  function S(queue: seq<Msg>, table: Table, actors: map<Generation, Actor>, places: map<RequestId, Place>): State {
    State(1, false, false, {}, true, queue, table, None, actors, map[], places)
  }

  function ToTen(phase: Phase, link: Link): Actor {
    NewActor(10).(phase := phase, link := link)
  }

  /** The connection to peer 10 after its first lease, which is no longer outstanding. */
  function Used(phase: Phase, notifying: nat, permit: bool, idle: bool): Actor {
    ToTen(phase, Up).(notifying := notifying, permit := permit, issued := true, idleActive := idle)
  }

  const T0 := Table(map[], [], 1)
  const T1 := Table(map[10 := 1], [], 2)
  const TIdle := Table(map[10 := 1], [(10, 1)], 2)
  const Granted := map[0 := Answered(Lease(1))]
  const Rested := Used(Select, 0, false, true)

  /** Request 0 for peer 10 has reached the mailbox of its new actor, in a pool of one slot. */
  const Asked := S([], T1, map[1 := NewActor(10).(mailbox := [0])], map[0 := Mailed(1)])

  /** Its lease has been granted and dropped, and the connection is on the idle list with its timer armed. */
  const Idled := S([], TIdle, map[1 := Rested], Granted)

  lemma Asking0()
    ensures Step(Start(1), SendRequest(0, 10), S([Request(0, 10)], T0, map[], map[0 := Queued]))
  {
  }

  lemma Asking1()
    ensures Step(S([Request(0, 10)], T0, map[], map[0 := Queued]), Handle,
                 S([], T1, map[1 := NewActor(10)], map[0 := Forwarding(1)]).(forwarding := Some((1, 0))))
  {
  }

  lemma Asking2()
    ensures Step(S([], T1, map[1 := NewActor(10)], map[0 := Forwarding(1)]).(forwarding := Some((1, 0))), Forward,
            Asked)
  {
    assert [] + [0] == [0];
  }

  lemma RunToAsked() returns (trace: seq<State>, labels: seq<Label>)
    ensures Run(trace, labels) && Last(trace) == Asked
  {
    Asking0();
    Asking1();
    Asking2();
    labels := [SendRequest(0, 10), Handle, Forward];
    trace := [Start(1), S([Request(0, 10)], T0, map[], map[0 := Queued]),
              S([], T1, map[1 := NewActor(10)], map[0 := Forwarding(1)]).(forwarding := Some((1, 0))), Asked];
  }

  /** From `Asked` to `Idled`. */
  function Using(i: nat): State {
    match i
    case 0 => Asked
    case 1 => S([], T1, map[1 := ToTen(Entering, Up).(mailbox := [0])], map[0 := Mailed(1)])
    case 2 => S([], T1, map[1 := ToTen(Select, Up).(mailbox := [0])], map[0 := Mailed(1)])
    case 3 => S([], T1, map[1 := ToTen(Select, Up).(count := 1, issued := true)], Granted).(leases := map[0 := 1])
    case 4 => S([], T1, map[1 := Used(Select, 1, false, false)], Granted)
    case 5 => S([], T1, map[1 := Used(Select, 0, true, false)], Granted)
    case 6 => S([], T1, map[1 := Used(ReportIdle, 0, false, false)], Granted)
    case 7 => S([Idle(10, 1)], T1, map[1 := Rested], Granted)
    case _ => Idled
  }

  const USING: seq<Label> := [ConnectUp(1), Enter(1), Receive(1), DropLease(0), NotifyOne(1), Wake(1), Report(1),
      Handle]

  lemma Using0() ensures Step(Using(0), USING[0], Using(1)) {}
  lemma Using1() ensures Step(Using(1), USING[1], Using(2)) {}
  lemma Using2() ensures Step(Using(2), USING[2], Using(3)) { assert [0][1..] == []; }
  lemma Using3() ensures Step(Using(3), USING[3], Using(4)) {}
  lemma Using4() ensures Step(Using(4), USING[4], Using(5)) {}
  lemma Using5() ensures Step(Using(5), USING[5], Using(6)) {}
  lemma Using6() ensures Step(Using(6), USING[6], Using(7)) {}
  lemma Using7() ensures Step(Using(7), USING[7], Using(8)) {}

  lemma RunToIdled() returns (trace: seq<State>, labels: seq<Label>)
    ensures Run(trace, labels) && Last(trace) == Idled
  {
    hide Step;
    var before, sent := RunToAsked();
    var states := seq(9, i requires 0 <= i < 9 => Using(i));
    Using0();
    Using1();
    Using2();
    Using3();
    Using4();
    Using5();
    Using6();
    Using7();
    Continue(before, sent, states, USING);
    trace, labels := before + states[1..], sent + USING;
  }
}
