// HTTP/2 bodies over a channel (src/channel.rs): how a request is framed, and how a response body is read.
//
// `Upload` is `call` with `pump_body`: it turns a request body into frames on the stream.
// `Download` is `IrohResponseBody`: it turns what the stream holds into a body again.
// Both are judged by the message format of section 8.1 of RFC 9113: one HEADERS frame, then DATA
// frames, then at most one trailer section, with END_STREAM on the last of them and nowhere else.

module Message {
  import opened Wrappers
  import opened Bytes

  type FieldBlock = seq<(seq<Byte>, seq<Byte>)>

  datatype Uri = Uri(scheme: Option<string>, authority: Option<string>, path: Option<string>)

  datatype Frame =
    | Headers(uri: Uri, endStream: bool)
    | Data(bytes: seq<Byte>, endStream: bool)
    | Trailers(fields: FieldBlock)
    | Reset

  predicate EndsStream(f: Frame) {
    match f
    case Headers(_, end) => end
    case Data(_, end) => end
    case Trailers(_) => true
    case Reset => false
  }

  /** A complete message: the format of section 8.1 of RFC 9113. */
  predicate IsMessage(wire: seq<Frame>) {
    && wire != []
    && wire[0].Headers?
    && (forall i :: 0 < i < |wire| ==> wire[i].Data? || (wire[i].Trailers? && i == |wire| - 1))
    && (forall i :: 0 <= i < |wire| ==> (EndsStream(wire[i]) <==> i == |wire| - 1))
  }

  /** A message begun and then given up: never ended, and reset. */
  predicate IsAborted(wire: seq<Frame>) {
    && |wire| >= 2
    && wire[0].Headers?
    && wire[|wire| - 1].Reset?
    && (forall i :: 0 < i < |wire| - 1 ==> wire[i].Data?)
    && (forall i :: 0 <= i < |wire| ==> !EndsStream(wire[i]))
  }

  function Payload(wire: seq<Frame>): seq<Byte> {
    if wire == [] then []
    else Payload(wire[..|wire| - 1]) + if wire[|wire| - 1].Data? then wire[|wire| - 1].bytes else []
  }

  function TrailersOf(wire: seq<Frame>): Option<FieldBlock> {
    if wire != [] && wire[|wire| - 1].Trailers? then Some(wire[|wire| - 1].fields) else None
  }

  lemma PayloadAppend(wire: seq<Frame>, f: Frame)
    ensures Payload(wire + [f]) == Payload(wire) + if f.Data? then f.bytes else []
  {
    assert (wire + [f])[..|wire|] == wire;
  }
}

module Upload {
  import opened Wrappers
  import opened Bytes
  import opened Message

  /** One answer of the request body. A body ends after its last answer. */
  datatype BodyPoll = DataFrame(bytes: seq<Byte>) | TrailersFrame(fields: FieldBlock) | OtherFrame | BodyError

  datatype Error = InvalidUri | H2 | StreamClosed | BodyFailed

  datatype Capacity = Granted | CapacityError | NoCapacity

  predicate GoesOn(p: BodyPoll) {
    p.DataFrame? || p.OtherFrame?
  }

  predicate AllGoOn(polls: seq<BodyPoll>) {
    forall i :: 0 <= i < |polls| ==> GoesOn(polls[i])
  }

  // ---- What a body means, read from its front ----

  /** The bytes of the body up to its trailers or its failure. */
  function BodyBytes(polls: seq<BodyPoll>): seq<Byte> {
    if polls == [] || !GoesOn(polls[0]) then []
    else (if polls[0].DataFrame? then polls[0].bytes else []) + BodyBytes(polls[1..])
  }

  function BodyTrailers(polls: seq<BodyPoll>): Option<FieldBlock> {
    if polls == [] || polls[0].BodyError? then None
    else if polls[0].TrailersFrame? then Some(polls[0].fields)
    else BodyTrailers(polls[1..])
  }

  /** The body fails before it ends or comes to its trailers. */
  predicate BodyFails(polls: seq<BodyPoll>) {
    polls != [] && !polls[0].TrailersFrame? && (polls[0].BodyError? || BodyFails(polls[1..]))
  }

  lemma {:induction false} BodyAt(polls: seq<BodyPoll>, k: nat)
    requires k <= |polls| && AllGoOn(polls[..k])
    ensures k == |polls| ==> BodyTrailers(polls) == None && !BodyFails(polls)
    ensures k < |polls| && polls[k].TrailersFrame? ==> BodyTrailers(polls) == Some(polls[k].fields) && !BodyFails(polls)
    ensures k < |polls| && polls[k].BodyError? ==> BodyTrailers(polls) == None && BodyFails(polls)
    ensures k == |polls| || !GoesOn(polls[k]) ==> BodyBytes(polls) == BodyBytes(polls[..k])
    ensures BodyBytes(polls[..k]) <= BodyBytes(polls)
  {
    if k > 0 {
      assert GoesOn(polls[..k][0]);
      assert polls[..k][1..] == polls[1..][..k - 1];
      var later := polls[1..][..k - 1];
      forall i | 0 <= i < |later| ensures GoesOn(later[i]) {
        assert GoesOn(polls[..k][i + 1]);
      }
      BodyAt(polls[1..], k - 1);
    }
  }

  lemma {:induction false} BodyBytesAppend(polls: seq<BodyPoll>, p: BodyPoll)
    requires AllGoOn(polls)
    ensures BodyBytes(polls + [p]) == BodyBytes(polls) + if p.DataFrame? then p.bytes else []
  {
    if polls == [] {
      assert ([p])[1..] == [];
    } else {
      assert (polls + [p])[1..] == polls[1..] + [p];
      BodyBytesAppend(polls[1..], p);
    }
  }

  // ---- The stream ----

  /** Frames `wire[1..]` carry the first answers of the body, and the message is still open. */
  predicate IsOpen(wire: seq<Frame>, polls: seq<BodyPoll>) {
    && wire != []
    && wire[0].Headers? && !EndsStream(wire[0])
    && (forall i :: 0 < i < |wire| ==> wire[i].Data? && !EndsStream(wire[i]))
    && AllGoOn(polls)
    && Payload(wire) == BodyBytes(polls)
  }

  /** The message is complete and says what the whole body says. */
  predicate Carries(wire: seq<Frame>, polls: seq<BodyPoll>) {
    && IsMessage(wire)
    && Payload(wire) == BodyBytes(polls)
    && TrailersOf(wire) == BodyTrailers(polls)
    && !BodyFails(polls)
  }

  lemma HeadIsOpen(head: Frame)
    requires head.Headers? && !head.endStream
    ensures IsOpen([head], [])
  {
    assert Payload([]) == [];
    PayloadAppend([], head);
    assert [] + [head] == [head];
  }

  lemma OpenTakesData(wire: seq<Frame>, polls: seq<BodyPoll>, bytes: seq<Byte>)
    requires IsOpen(wire, polls)
    ensures IsOpen(wire + [Data(bytes, false)], polls + [DataFrame(bytes)])
  {
    PayloadAppend(wire, Data(bytes, false));
    BodyBytesAppend(polls, DataFrame(bytes));
  }

  lemma OpenSkips(wire: seq<Frame>, polls: seq<BodyPoll>)
    requires IsOpen(wire, polls)
    ensures IsOpen(wire, polls + [OtherFrame])
  {
    BodyBytesAppend(polls, OtherFrame);
  }

  /** The frame that ends an open message makes it complete. */
  lemma OpenEnds(wire: seq<Frame>, polls: seq<BodyPoll>, k: nat, last: Frame)
    requires k <= |polls| && IsOpen(wire, polls[..k])
    requires if k == |polls| then last == Data([], true)
             else polls[k].TrailersFrame? && last == Trailers(polls[k].fields)
    ensures Carries(wire + [last], polls)
  {
    PayloadAppend(wire, last);
    BodyAt(polls, k);
  }

  lemma OpenAborts(wire: seq<Frame>, polls: seq<BodyPoll>, k: nat)
    requires k <= |polls| && IsOpen(wire, polls[..k])
    ensures IsAborted(wire + [Reset]) && Payload(wire + [Reset]) <= BodyBytes(polls)
  {
    PayloadAppend(wire, Reset);
    BodyAt(polls, k);
  }

  /** The sending half of an HTTP/2 stream. Each send is accepted or refused by the connection. */
  class SendStream {
    var wire: seq<Frame>

    constructor (head: Frame)
      ensures wire == [head]
    {
      wire := [head];
    }

    method Send(f: Frame, accepted: bool)
      modifies this
      ensures wire == if accepted then old(wire) + [f] else old(wire)
    {
      if accepted {
        wire := wire + [f];
      }
    }

    method SendReset()
      modifies this
      ensures wire == old(wire) + [Reset]
    {
      wire := wire + [Reset];
    }
  }

  /** What the connection does with the frame for answer `k` of the body, the end counting as one more: the
      window it grants to data, and whether it accepts the frame. */
  datatype Connection = Connection(window: nat -> Capacity, accepts: nat -> bool)

  /** Answer `k` of the body is passed on, or of no concern. */
  predicate Passes(polls: seq<BodyPoll>, conn: Connection, k: nat)
    requires k < |polls|
  {
    polls[k].OtherFrame? || (polls[k].DataFrame? && conn.window(k).Granted? && conn.accepts(k))
  }

  /** The pump passes on everything before answer `k` and stops there, with this result: it is done if the
      end or the trailers are accepted; it fails with the body, for want of window, or with a refused send. */
  predicate StopsAt(polls: seq<BodyPoll>, conn: Connection, k: nat, r: Result<(), Error>) {
    && k <= |polls| && (forall j :: 0 <= j < k ==> Passes(polls, conn, j))
    && if k == |polls| then r == if conn.accepts(k) then Ok(()) else Err(H2)
       else match polls[k]
         case TrailersFrame(_) => r == if conn.accepts(k) then Ok(()) else Err(H2)
         case BodyError => r == Err(BodyFailed)
         case OtherFrame => false
         case DataFrame(_) =>
           match conn.window(k)
           case Granted => r == Err(H2) && !conn.accepts(k)
           case CapacityError => r == Err(H2)
           case NoCapacity => r == Err(StreamClosed)
  }

  /** `pump_body`, on a connection that answers as given. It succeeds only when the whole body is on the
      wire; otherwise the message stays open, with what was passed on. */
  method PumpBody(polls: seq<BodyPoll>, conn: Connection, stream: SendStream)
    returns (r: Result<(), Error>, ghost consumed: nat)
    requires IsOpen(stream.wire, [])
    modifies stream
    ensures StopsAt(polls, conn, consumed, r)
    ensures r.Ok? ==> Carries(stream.wire, polls) && stream.wire[0] == old(stream.wire[0])
    ensures r.Err? ==> IsOpen(stream.wire, polls[..consumed]) && stream.wire[0] == old(stream.wire[0])
  {
    hide Carries, Payload, BodyBytes;
    var i := 0;
    consumed := 0;
    assert polls[..0] == [];
    while i < |polls|
      invariant consumed == i <= |polls| && forall j :: 0 <= j < i ==> Passes(polls, conn, j)
      invariant IsOpen(stream.wire, polls[..i]) && stream.wire[0] == old(stream.wire[0])
    {
      assert polls[..i + 1] == polls[..i] + [polls[i]];
      match polls[i] {
        case DataFrame(bytes) =>
          match conn.window(i) {
            case Granted =>
            case CapacityError => return Err(H2), i;
            case NoCapacity => return Err(StreamClosed), i;
          }
          OpenTakesData(stream.wire, polls[..i], bytes);
          stream.Send(Data(bytes, false), conn.accepts(i));
          if !conn.accepts(i) {
            return Err(H2), i;
          }
        case TrailersFrame(fields) =>
          OpenEnds(stream.wire, polls, i, Trailers(fields));
          stream.Send(Trailers(fields), conn.accepts(i));
          return if conn.accepts(i) then Ok(()) else Err(H2), i;
        case OtherFrame =>
          OpenSkips(stream.wire, polls[..i]);
        case BodyError =>
          return Err(BodyFailed), i;
      }
      i := i + 1;
      consumed := i;
    }
    OpenEnds(stream.wire, polls, i, Data([], true));
    stream.Send(Data([], true), conn.accepts(i));
    return if conn.accepts(i) then Ok(()) else Err(H2), i;
  }

  // ---- The call ----

  /** Scheme and authority always come from the origin, with fixed defaults; the rest is the request's. */
  function ApplyOrigin(uri: Uri, origin: Uri): Uri {
    Uri(Some(if origin.scheme.Some? then origin.scheme.value else "http"),
        Some(if origin.authority.Some? then origin.authority.value else "iroh.local"),
        uri.path)
  }

  /** The head goes to the origin, whatever the request's own scheme and authority, with the request's path,
      and ends the stream exactly if the body claims to be at its end. */
  predicate HeadFor(head: Frame, origin: Uri, uri: Uri, hinted: bool) {
    && head.Headers? && head.endStream == hinted && head.uri.path == uri.path
    && (origin.scheme.Some? ==> head.uri.scheme == origin.scheme)
    && (origin.scheme.None? ==> head.uri.scheme == Some("http"))
    && (origin.authority.Some? ==> head.uri.authority == origin.authority)
    && (origin.authority.None? ==> head.uri.authority == Some("iroh.local"))
  }

  /** `call`. `valid` says whether the rewritten URI is a valid one, `hinted` is the body's own claim to be at
      its end, `sends` whether the head is accepted and `answered` whether a response comes. A call
      succeeds only on a complete message; a failed call has sent nothing, a complete message, or a message
      it has reset: the peer is never left waiting for the rest. */
  method Call(origin: Uri, uri: Uri, valid: bool, hinted: bool, sends: bool, polls: seq<BodyPoll>, conn: Connection,
              answered: bool)
    returns (r: Result<(), Error>, wire: seq<Frame>)
    ensures !valid ==> r == Err(InvalidUri) && wire == []
    ensures valid && !sends ==> r == Err(H2) && wire == []
    ensures valid && sends ==> wire != [] && HeadFor(wire[0], origin, uri, hinted)
    ensures valid && sends && hinted ==> IsMessage(wire) && |wire| == 1 && r == if answered then Ok(()) else Err(H2)
    ensures valid && sends && !hinted ==>
              exists k, pumped :: StopsAt(polls, conn, k, pumped)
                && if pumped.Ok? then Carries(wire, polls) && r == if answered then Ok(()) else Err(H2)
                   else IsAborted(wire) && Payload(wire) <= BodyBytes(polls) && r == pumped
    ensures r == Err(BodyFailed) ==> BodyFails(polls)
  {
    if !valid {
      return Err(InvalidUri), [];
    }
    if !sends {
      return Err(H2), [];
    }
    var stream := new SendStream(Headers(ApplyOrigin(uri, origin), hinted));
    if !hinted {
      HeadIsOpen(stream.wire[0]);
      ghost var consumed;
      r, consumed := PumpBody(polls, conn, stream);
      assert StopsAt(polls, conn, consumed, r);
      if r.Err? {
        OpenAborts(stream.wire, polls, consumed);
        BodyAt(polls, consumed);
        stream.SendReset();
        return r, stream.wire;
      }
    }
    return if answered then Ok(()) else Err(H2), stream.wire;
  }
}

module Download {
  import opened Wrappers
  import opened Bytes
  import opened Message
  import Upload

  /** How what a stream holds ends: cleanly with or without trailers, or in an error. */
  datatype Tail = Ended(trailers: Option<FieldBlock>) | DataFailed | TrailersFailed

  /** What the receiving half of a stream has yet to deliver. */
  datatype Incoming = Incoming(chunks: seq<seq<Byte>>, tail: Tail)

  datatype BodyState = Reading(recv: Incoming) | AwaitingTrailers(tail: Tail) | Done

  datatype Output = Pending | DataOut(bytes: seq<Byte>) | TrailersOut(fields: FieldBlock) | ErrorOut | EndOut

  /** What the stream is ready for at one poll, and whether it takes released window back. */
  datatype Readiness = Readiness(data: bool, trailers: bool, release: bool)

  /** What comes after the data: the trailers, the end if there are none, or an error; each once. */
  predicate EndsWith(tail: Tail, ready: bool, out: Output, after: BodyState) {
    if !ready then out == Pending && after == AwaitingTrailers(tail)
    else
      && after == Done
      && (tail == Ended(None) ==> out == EndOut)
      && (tail.Ended? && tail.trailers.Some? ==> out == TrailersOut(tail.trailers.value))
      && (!tail.Ended? ==> out == ErrorOut)
  }

  class ResponseBody {
    var state: BodyState
    var released: nat

    constructor (recv: Incoming)
      ensures state == Reading(recv) && released == 0
    {
      state, released := Reading(recv), 0;
    }

    /** `poll_frame`: loops until it can answer; only the change to the trailers state goes round again. */
    method PollFrame(ready: Readiness) returns (out: Output)
      modifies this
      ensures (state, out) == Poll(old(state), ready)
      ensures old(state).Reading? && !ready.data ==> out == Pending && state == old(state)
      ensures old(state).Reading? && ready.data && old(state).recv.chunks != [] ==>
                var recv := old(state).recv;
                if ready.release
                then out == DataOut(recv.chunks[0]) && state == Reading(recv.(chunks := recv.chunks[1..]))
                else out == ErrorOut && state == Done
      ensures old(state).Reading? && ready.data && old(state).recv.chunks == [] ==>
                if old(state).recv.tail.DataFailed? then out == ErrorOut && state == Done
                else EndsWith(old(state).recv.tail, ready.trailers, out, state)
      ensures old(state).AwaitingTrailers? ==> EndsWith(old(state).tail, ready.trailers, out, state)
      ensures old(state).Done? ==> out == EndOut && state == Done
      ensures released == old(released) + if out.DataOut? then |out.bytes| else 0
    {
      while true
        invariant released == old(released)
        invariant state == old(state)
                  || (old(state).Reading? && old(state).recv.chunks == [] && ready.data
                      && !old(state).recv.tail.DataFailed? && state == AwaitingTrailers(old(state).recv.tail))
        decreases state.Reading?
      {
        match state
        case Reading(recv) =>
          if !ready.data {
            return Pending;
          }
          if recv.chunks != [] {
            var data := recv.chunks[0];
            if !ready.release {
              state := Done;
              return ErrorOut;
            }
            released := released + |data|;
            state := Reading(recv.(chunks := recv.chunks[1..]));
            return DataOut(data);
          }
          if recv.tail.DataFailed? {
            state := Done;
            return ErrorOut;
          }
          state := AwaitingTrailers(recv.tail);
        case AwaitingTrailers(tail) =>
          if !ready.trailers {
            return Pending;
          }
          state := Done;
          match tail {
            case Ended(None) => return EndOut;
            case Ended(Some(fields)) => return TrailersOut(fields);
            case _ => return ErrorOut;
          }
        case Done =>
          return EndOut;
      }
    }
  }

  /** One poll of the body. */
  function Poll(state: BodyState, ready: Readiness): (BodyState, Output) {
    match state
    case Reading(recv) =>
      if !ready.data then (state, Pending)
      else if recv.chunks != [] && ready.release
      then (Reading(recv.(chunks := recv.chunks[1..])), DataOut(recv.chunks[0]))
      else if recv.chunks != [] || recv.tail.DataFailed? then (Done, ErrorOut)
      else PollTrailers(recv.tail, ready)
    case AwaitingTrailers(tail) => PollTrailers(tail, ready)
    case Done => (Done, EndOut)
  }

  function PollTrailers(tail: Tail, ready: Readiness): (BodyState, Output) {
    if !ready.trailers then (AwaitingTrailers(tail), Pending)
    else match tail
      case Ended(None) => (Done, EndOut)
      case Ended(Some(fields)) => (Done, TrailersOut(fields))
      case _ => (Done, ErrorOut)
  }

  function Outputs(state: BodyState, polls: seq<Readiness>): (outs: seq<Output>)
    ensures |outs| == |polls|
    decreases |polls|
  {
    if polls == [] then [] else
      var (next, out) := Poll(state, polls[0]);
      [out] + Outputs(next, polls[1..])
  }

  function StateAfter(state: BodyState, polls: seq<Readiness>): BodyState
    decreases |polls|
  {
    if polls == [] then state else StateAfter(Poll(state, polls[0]).0, polls[1..])
  }

  /** What there is to read, in the order a body must give it: every chunk, then the trailers or the error. */
  function Expected(state: BodyState): seq<Output> {
    match state
    case Reading(recv) => AsOutputs(recv.chunks) + Final(recv.tail)
    case AwaitingTrailers(tail) => Final(tail)
    case Done => []
  }

  function AsOutputs(chunks: seq<seq<Byte>>): seq<Output> {
    if chunks == [] then [] else [DataOut(chunks[0])] + AsOutputs(chunks[1..])
  }

  function Final(tail: Tail): seq<Output> {
    match tail
    case Ended(None) => []
    case Ended(Some(fields)) => [TrailersOut(fields)]
    case _ => [ErrorOut]
  }

  /** An output that a reader acts on: anything but `Pending` and the end marker. */
  function Shown(out: Output): seq<Output> {
    if out.Pending? || out.EndOut? then [] else [out]
  }

  function Visible(outs: seq<Output>): seq<Output> {
    if outs == [] then []
    else Shown(outs[0]) + Visible(outs[1..])
  }

  /** One poll, with released window taken back: what it shows is the front of what there was. */
  lemma PollShowsTheFront(state: BodyState, ready: Readiness)
    requires ready.release
    ensures var (next, out) := Poll(state, ready);
            Expected(state) == Shown(out) + Expected(next)
    ensures var (next, out) := Poll(state, ready);
            out.EndOut? ==> next == Done && Expected(state) == []
  {
  }

  lemma {:induction false} DoneShowsNothing(polls: seq<Readiness>)
    ensures Visible(Outputs(Done, polls)) == []
  {
    if polls != [] {
      DoneShowsNothing(polls[1..]);
    }
  }

  /** A reader polls as often as it likes, at whatever readiness. While released window is taken back, it
      has read a prefix of what there is; and once it is told the end, all of it. */
  lemma {:induction false} ReadsWhatThereIs(state: BodyState, polls: seq<Readiness>)
    requires forall i :: 0 <= i < |polls| ==> polls[i].release
    ensures Expected(state) == Visible(Outputs(state, polls)) + Expected(StateAfter(state, polls))
    ensures EndOut in Outputs(state, polls) ==> Visible(Outputs(state, polls)) == Expected(state)
    decreases |polls|
  {
    hide Poll, Expected, PollTrailers, Final, AsOutputs, Visible, Outputs, StateAfter;
    if polls == [] {
      NoPolls(state);
    } else {
      var (next, out) := Poll(state, polls[0]);
      PollShowsTheFront(state, polls[0]);
      FirstPoll(state, polls);
      ReadsWhatThereIs(next, polls[1..]);
      if out.EndOut? {
        DoneShowsNothing(polls[1..]);
      }
    }
  }

  lemma NoPolls(state: BodyState)
    ensures Outputs(state, []) == [] && Visible(Outputs(state, [])) == [] && StateAfter(state, []) == state
  {
  }

  lemma FirstPoll(state: BodyState, polls: seq<Readiness>)
    requires polls != []
    ensures var (next, out) := Poll(state, polls[0]);
            && Outputs(state, polls) == [out] + Outputs(next, polls[1..])
            && Visible(Outputs(state, polls)) == Shown(out) + Visible(Outputs(next, polls[1..]))
            && StateAfter(state, polls) == StateAfter(next, polls[1..])
  {
    hide Poll;
    var (next, out) := Poll(state, polls[0]);
    assert ([out] + Outputs(next, polls[1..]))[1..] == Outputs(next, polls[1..]);
  }

  // ---- A framed message, read back ----

  function Chunks(wire: seq<Frame>): seq<seq<Byte>> {
    if wire == [] then []
    else Chunks(wire[..|wire| - 1]) + if wire[|wire| - 1].Data? then [wire[|wire| - 1].bytes] else []
  }

  /** What a stream holds once a complete message has arrived on it. */
  function Arrived(wire: seq<Frame>): Incoming {
    Incoming(Chunks(wire), Ended(TrailersOf(wire)))
  }

  function Given(outs: seq<Output>): seq<Byte> {
    if outs == [] then [] else (if outs[0].DataOut? then outs[0].bytes else []) + Given(outs[1..])
  }

  lemma {:induction false} GivenConcat(a: seq<Output>, b: seq<Output>)
    ensures Given(a + b) == Given(a) + Given(b)
  {
    if a == [] {
      assert a + b == b;
    } else {
      assert (a + b)[1..] == a[1..] + b;
      GivenConcat(a[1..], b);
    }
  }

  lemma {:induction false} AsOutputsConcat(a: seq<seq<Byte>>, b: seq<seq<Byte>>)
    ensures AsOutputs(a + b) == AsOutputs(a) + AsOutputs(b)
  {
    if a == [] {
      assert a + b == b;
    } else {
      assert (a + b)[1..] == a[1..] + b;
      AsOutputsConcat(a[1..], b);
    }
  }

  lemma {:induction false} ChunksCarryThePayload(wire: seq<Frame>)
    ensures Given(AsOutputs(Chunks(wire))) == Payload(wire)
  {
    if wire != [] {
      var last := wire[|wire| - 1];
      var add := if last.Data? then [last.bytes] else [];
      ChunksCarryThePayload(wire[..|wire| - 1]);
      AsOutputsConcat(Chunks(wire[..|wire| - 1]), add);
      GivenConcat(AsOutputs(Chunks(wire[..|wire| - 1])), AsOutputs(add));
    }
  }

  /** A body framed as `PumpBody` frames it and read as `PollFrame` reads it comes back: a reader that is
      told the end has every byte in order and the trailers, if there were any, after them. */
  lemma FramedBodyIsReadBack(wire: seq<Frame>, body: seq<Upload.BodyPoll>, polls: seq<Readiness>)
    requires Upload.Carries(wire, body)
    requires forall i :: 0 <= i < |polls| ==> polls[i].release
    requires EndOut in Outputs(Reading(Arrived(wire)), polls)
    ensures var seen := Visible(Outputs(Reading(Arrived(wire)), polls));
            var t := Upload.BodyTrailers(body);
            var trailers := if t.Some? then [TrailersOut(t.value)] else [];
            seen == AsOutputs(Chunks(wire)) + trailers && Given(AsOutputs(Chunks(wire))) == Upload.BodyBytes(body)
  {
    hide Poll, Outputs, Visible;
    var start := Reading(Arrived(wire));
    ReadsWhatThereIs(start, polls);
    ChunksCarryThePayload(wire);
  }

  // ---- Progress ----

  predicate AllReady(ready: Readiness) {
    ready.data && ready.trailers && ready.release
  }

  /** A stream that is ready is never answered by waiting, and a chunk that is ready is handed out; but if
      the window released for it is not taken back, by an error, after which only the end is answered. */
  lemma ReadyIsAnswered(state: BodyState, ready: Readiness)
    requires ready.data && ready.trailers
    ensures !Poll(state, ready).1.Pending?
    ensures state.Reading? && state.recv.chunks != [] ==>
              if ready.release
              then Poll(state, ready).1 == DataOut(state.recv.chunks[0])
              else Poll(state, ready) == (Done, ErrorOut)
  {
  }

  /** How many polls a stream that stays ready takes until its end is told. */
  function PollsLeft(state: BodyState): nat {
    match state
    case Reading(recv) => |recv.chunks| + 2
    case AwaitingTrailers(_) => 2
    case Done => 1
  }

  /** A stream that stays ready is read to its end in |chunks| + 2 polls: the end is told by then, and all
      there was has been shown. */
  lemma {:induction false} ReadyIsReadToTheEnd(state: BodyState, polls: seq<Readiness>)
    requires |polls| >= PollsLeft(state) && forall i :: 0 <= i < |polls| ==> AllReady(polls[i])
    ensures EndOut in Outputs(state, polls)
    ensures Visible(Outputs(state, polls)) == Expected(state)
    decreases |polls|
  {
    ReadsWhatThereIs(state, polls);
    TellsTheEnd(state, polls);
  }

  lemma {:induction false} TellsTheEnd(state: BodyState, polls: seq<Readiness>)
    requires |polls| >= PollsLeft(state) && forall i :: 0 <= i < |polls| ==> AllReady(polls[i])
    ensures EndOut in Outputs(state, polls)
    decreases |polls|
  {
    hide Expected, Visible;
    var (next, out) := Poll(state, polls[0]);
    assert AllReady(polls[0]);
    if !out.EndOut? {
      TellsTheEnd(next, polls[1..]);
    } else {
      assert Outputs(state, polls)[0] == EndOut;
    }
  }

  /** And chunk `k` is what poll `k` gives. */
  lemma {:induction false} ReadyGivesChunks(recv: Incoming, polls: seq<Readiness>, k: nat)
    requires k < |recv.chunks| && k < |polls| && forall i :: 0 <= i <= k ==> AllReady(polls[i])
    ensures Outputs(Reading(recv), polls)[k] == DataOut(recv.chunks[k])
    decreases k
  {
    assert AllReady(polls[0]);
    if k > 0 {
      ReadyGivesChunks(recv.(chunks := recv.chunks[1..]), polls[1..], k - 1);
    }
  }

  predicate IsFinal(out: Output) {
    out.TrailersOut? || out.ErrorOut? || out.EndOut?
  }

  /** The shape of every body, also when the stream fails or refuses released window: after trailers, an
      error or the end, only the end is ever answered. */
  lemma {:induction false} NothingAfterTheEnd(state: BodyState, polls: seq<Readiness>, i: nat, j: nat)
    requires i < j < |polls| && IsFinal(Outputs(state, polls)[i])
    ensures Outputs(state, polls)[j].EndOut?
    decreases |polls|
  {
    if i > 0 {
      NothingAfterTheEnd(Poll(state, polls[0]).0, polls[1..], i - 1, j - 1);
    } else {
      DoneForever(polls[1..], j - 1);
    }
  }

  lemma {:induction false} DoneForever(polls: seq<Readiness>, j: nat)
    requires j < |polls|
    ensures Outputs(Done, polls)[j].EndOut?
  {
    if j > 0 {
      DoneForever(polls[1..], j - 1);
    }
  }

  function DataSize(outs: seq<Output>): nat {
    if outs == [] then 0 else (if outs[0].DataOut? then |outs[0].bytes| else 0) + DataSize(outs[1..])
  }

  lemma {:induction false} DataSizeAppend(outs: seq<Output>, out: Output)
    ensures DataSize(outs + [out]) == DataSize(outs) + if out.DataOut? then |out.bytes| else 0
  {
    if outs != [] {
      assert (outs + [out])[1..] == outs[1..] + [out];
      DataSizeAppend(outs[1..], out);
    }
  }

  lemma {:induction false} OutputsAppend(state: BodyState, polls: seq<Readiness>, ready: Readiness)
    ensures Outputs(state, polls + [ready]) == Outputs(state, polls) + [Poll(StateAfter(state, polls), ready).1]
    ensures StateAfter(state, polls + [ready]) == Poll(StateAfter(state, polls), ready).0
    decreases |polls|
  {
    if polls == [] {
      assert ([] + [ready])[1..] == [];
    } else {
      assert (polls + [ready])[1..] == polls[1..] + [ready];
      OutputsAppend(Poll(state, polls[0]).0, polls[1..], ready);
    }
  }

  /** A whole reading of a response: the window given back is exactly the size of the data handed out. */
  method Read(recv: Incoming, polls: seq<Readiness>) returns (outs: seq<Output>, released: nat)
    ensures outs == Outputs(Reading(recv), polls)
    ensures released == DataSize(outs)
    ensures forall i, j :: 0 <= i < j < |outs| && IsFinal(outs[i]) ==> outs[j].EndOut?
    ensures (forall i :: 0 <= i < |polls| ==> polls[i].release) ==> Visible(outs) <= Expected(Reading(recv))
    ensures (forall i :: 0 <= i < |polls| ==> polls[i].release) && EndOut in outs ==>
            Visible(outs) == Expected(Reading(recv))
    ensures |polls| >= |recv.chunks| + 2 && (forall i :: 0 <= i < |polls| ==> AllReady(polls[i])) ==>
            EndOut in outs && forall k :: 0 <= k < |recv.chunks| ==> outs[k] == DataOut(recv.chunks[k])
  {
    hide Poll;
    var body := new ResponseBody(recv);
    outs := [];
    for i := 0 to |polls|
      invariant outs == Outputs(Reading(recv), polls[..i]) && body.state == StateAfter(Reading(recv), polls[..i])
      invariant body.released == DataSize(outs)
    {
      assert polls[..i + 1] == polls[..i] + [polls[i]];
      OutputsAppend(Reading(recv), polls[..i], polls[i]);
      var out := body.PollFrame(polls[i]);
      DataSizeAppend(outs, out);
      outs := outs + [out];
    }
    released := body.released;
    assert polls[..|polls|] == polls;
    forall i, j | 0 <= i < j < |outs| && IsFinal(outs[i]) ensures outs[j].EndOut? {
      NothingAfterTheEnd(Reading(recv), polls, i, j);
    }
    if forall i :: 0 <= i < |polls| ==> polls[i].release {
      ReadsWhatThereIs(Reading(recv), polls);
    }
    if |polls| >= |recv.chunks| + 2 && forall i :: 0 <= i < |polls| ==> AllReady(polls[i]) {
      ReadyIsReadToTheEnd(Reading(recv), polls);
      forall k | 0 <= k < |recv.chunks| ensures outs[k] == DataOut(recv.chunks[k]) {
        ReadyGivesChunks(recv, polls, k);
      }
    }
  }
}
