/** The goroutine behind dockerEngine.Events: it moves messages from the client's raw channel into a bounded
    channel for the consumer. A run is a list of labels, one per step of the client, the goroutine, the consumer
    or the context; a label that is not enabled changes nothing. */
module EventStream {
  import opened Outcomes

  const BUFFER_SIZE: nat := 64

  datatype RawEvent = RawEvent(kind: string, action: string, actorID: string, attributes: map<string, string>)

  datatype Event = Event(kind: string, action: string, actor: string)

  // dockerActorString: the name attribute, or the id.
  function ActorString(m: RawEvent): string {
    if "name" in m.attributes then m.attributes["name"] else m.actorID
  }

  function Convert(m: RawEvent): Event {
    Event(m.kind, m.action, ActorString(m))
  }

  function ConvertAll(ms: seq<RawEvent>): seq<Event> {
    seq(|ms|, i requires 0 <= i < |ms| => Convert(ms[i]))
  }

  datatype Reason = RawClosed | RawError | CtxDone

  // Selecting: in select. Holding: a converted event waits for a free slot. Leaving: returning. Closed: channel closed.
  datatype Stage = Selecting | Holding(event: Event) | Leaving(why: Reason) | Closed(why: Reason)

  // sent: everything the client put on the raw channel; the goroutine has taken the first `taken` of it.
  datatype Stream = Stream(
    sent: seq<RawEvent>,
    rawClosed: bool,
    rawError: bool,
    cancelled: bool,
    taken: nat,
    stage: Stage,
    buffer: seq<Event>,
    received: seq<Event>)

  datatype Label =
    | Produce(m: RawEvent)
    | CloseRaw
    | RaiseError
    | Cancel
    | Take
    | SeeClosed
    | SeeError
    | SeeCancel
    | Push
    | CloseOut
    | Receive

  const INIT: Stream := Stream([], false, false, false, 0, Selecting, [], [])

  function Apply(s: Stream, l: Label): Stream {
    match l
    case Produce(m) => if s.rawClosed then s else s.(sent := s.sent + [m])
    case CloseRaw => s.(rawClosed := true)
    case RaiseError => s.(rawError := true)
    case Cancel => s.(cancelled := true)
    case Take =>
      if s.stage != Selecting || s.taken >= |s.sent| then s
      else s.(taken := s.taken + 1, stage := Holding(Convert(s.sent[s.taken])))
    case SeeClosed =>
      if s.stage != Selecting || !s.rawClosed || s.taken < |s.sent| then s else s.(stage := Leaving(RawClosed))
    case SeeError => if s.stage != Selecting || !s.rawError then s else s.(stage := Leaving(RawError))
    case SeeCancel => if s.stage != Selecting || !s.cancelled then s else s.(stage := Leaving(CtxDone))
    case Push =>
      if !s.stage.Holding? || |s.buffer| >= BUFFER_SIZE then s
      else s.(stage := Selecting, buffer := s.buffer + [s.stage.event])
    case CloseOut => if !s.stage.Leaving? then s else s.(stage := Closed(s.stage.why))
    case Receive =>
      if s.buffer == [] then s else s.(buffer := s.buffer[1..], received := s.received + [s.buffer[0]])
  }

  ghost function Exec(run: seq<Label>): Stream {
    if run == [] then INIT else Apply(Exec(run[..|run| - 1]), run[|run| - 1])
  }

  function InHand(s: Stream): seq<Event> {
    if s.stage.Holding? then [s.stage.event] else []
  }

  function Ended(s: Stream): Option<Reason> {
    match s.stage
    case Leaving(why) => Some(why)
    case Closed(why) => Some(why)
    case _ => None
  }

  // Received, buffered and in-hand events are, in order, the converted prefix taken so far; the buffer keeps its
  // bound; and the goroutine leaves on a closed raw channel only when it has taken everything ever sent.
  ghost predicate Inv(s: Stream) {
    && s.taken <= |s.sent|
    && s.received + s.buffer + InHand(s) == ConvertAll(s.sent[..s.taken])
    && |s.buffer| <= BUFFER_SIZE
    && (Ended(s) == Some(RawClosed) ==> s.rawClosed && s.taken == |s.sent|)
    && (Ended(s) == Some(RawError) ==> s.rawError)
    && (Ended(s) == Some(CtxDone) ==> s.cancelled)
  }

  // e is what the consumer sees of m: its type and action, and its actor by name if it has one, else by id.
  ghost predicate Shows(e: Event, m: RawEvent) {
    && e.kind == m.kind && e.action == m.action
    && e.actor == if "name" in m.attributes then m.attributes["name"] else m.actorID
  }

  lemma TakeKeepsInv(s: Stream)
    requires Inv(s)
    ensures Inv(Apply(s, Take))
  {
    if s.stage == Selecting && s.taken < |s.sent| {
      var m := s.sent[s.taken];
      assert s.sent[..s.taken + 1] == s.sent[..s.taken] + [m];
      assert ConvertAll(s.sent[..s.taken] + [m]) == ConvertAll(s.sent[..s.taken]) + [Convert(m)];
      assert s.received + s.buffer + [] == s.received + s.buffer;
    }
  }

  lemma PushKeepsInv(s: Stream)
    requires Inv(s)
    ensures Inv(Apply(s, Push))
  {
    if s.stage.Holding? && |s.buffer| < BUFFER_SIZE {
      assert s.received + (s.buffer + [s.stage.event]) + [] == s.received + s.buffer + [s.stage.event];
    }
  }

  lemma ReceiveKeepsInv(s: Stream)
    requires Inv(s)
    ensures Inv(Apply(s, Receive))
  {
    if s.buffer != [] {
      assert s.received + [s.buffer[0]] + s.buffer[1..] == s.received + s.buffer;
    }
  }

  lemma StepKeepsInv(s: Stream, l: Label)
    requires Inv(s)
    ensures Inv(Apply(s, l))
  {
    match l
    case Produce(m) => assert Apply(s, l).sent[..s.taken] == s.sent[..s.taken];
    case Take => TakeKeepsInv(s);
    case Push => PushKeepsInv(s);
    case Receive => ReceiveKeepsInv(s);
    case _ =>
  }

  // Loss-free FIFO at every step of every run.
  lemma {:induction false} ForwardingIsFifo(run: seq<Label>)
    ensures var s := Exec(run);
            var seen := s.received + s.buffer + if s.stage.Holding? then [s.stage.event] else [];
            && |seen| == s.taken <= |s.sent| && |s.buffer| <= 64
            && forall i | 0 <= i < |seen| :: Shows(seen[i], s.sent[i])
    ensures Inv(Exec(run))
  {
    if run != [] {
      ForwardingIsFifo(run[..|run| - 1]);
      StepKeepsInv(Exec(run[..|run| - 1]), run[|run| - 1]);
    }
  }

  // A consumer that drains a stream which ended because the raw channel closed has received every message ever sent.
  lemma DrainedStreamIsComplete(run: seq<Label>)
    requires Ended(Exec(run)) == Some(RawClosed) && Exec(run).buffer == []
    ensures |Exec(run).received| == |Exec(run).sent|
    ensures forall i | 0 <= i < |Exec(run).sent| :: Shows(Exec(run).received[i], Exec(run).sent[i])
  {
    ForwardingIsFifo(run);
    var s := Exec(run);
    assert s.sent[..s.taken] == s.sent;
    assert s.received + [] + [] == s.received;
  }

  lemma ExecExtends(run: seq<Label>, l: Label)
    ensures Exec(run + [l]) == Apply(Exec(run), l)
  {
    assert (run + [l])[..|run + [l]| - 1] == run;
  }

  lemma ClosedStep(s: Stream, l: Label)
    requires s.stage.Closed?
    ensures var r := Apply(s, l);
            r.stage == s.stage && r.taken == s.taken && r.received + r.buffer == s.received + s.buffer
  {
    if s.buffer != [] {
      assert s.received + [s.buffer[0]] + s.buffer[1..] == s.received + s.buffer;
    }
  }

  // Once the channel is closed it stays closed and nothing more is sent: the consumer can only drain it.
  lemma {:induction false} NothingAfterClose(run: seq<Label>, more: seq<Label>)
    requires Exec(run).stage.Closed?
    ensures Exec(run + more).stage == Exec(run).stage && Exec(run + more).taken == Exec(run).taken
    ensures Exec(run + more).received + Exec(run + more).buffer == Exec(run).received + Exec(run).buffer
    decreases |more|
  {
    if more == [] {
      assert run + more == run;
    } else {
      var n := |more| - 1;
      assert run + more == run + more[..n] + [more[n]];
      NothingAfterClose(run, more[..n]);
      ExecExtends(run + more[..n], more[n]);
      ClosedStep(Exec(run + more[..n]), more[n]);
    }
  }

  // A held event is sent exactly when the 64-slot channel has room.
  lemma SendBlocksIff(run: seq<Label>)
    requires Exec(run).stage.Holding?
    ensures var s := Exec(run);
            if |s.buffer| == 64 then Apply(s, Push) == s
            else Apply(s, Push).stage == Selecting && Apply(s, Push).buffer == s.buffer + [s.stage.event]
  {
    ForwardingIsFifo(run);
  }

  lemma HeldStep(s: Stream, l: Label)
    requires s.stage.Holding? && |s.buffer| == BUFFER_SIZE && l != Receive
    ensures Apply(s, l).stage == s.stage && Apply(s, l).buffer == s.buffer
  {
  }

  // The send is not guarded by the context: with a full buffer, neither cancellation nor any other step than a
  // receive lets the goroutine go on.
  lemma {:induction false} FullBufferHolds(run: seq<Label>, more: seq<Label>)
    requires Exec(run).stage.Holding? && |Exec(run).buffer| == BUFFER_SIZE
    requires forall l | l in more :: l != Receive
    ensures Exec(run + more).stage == Exec(run).stage && Exec(run + more).buffer == Exec(run).buffer
    decreases |more|
  {
    if more == [] {
      assert run + more == run;
    } else {
      var n := |more| - 1;
      assert run + more == run + more[..n] + [more[n]];
      assert more[n] in more && forall l | l in more[..n] :: l in more;
      FullBufferHolds(run, more[..n]);
      ExecExtends(run + more[..n], more[n]);
      HeldStep(Exec(run + more[..n]), more[n]);
    }
  }
}
