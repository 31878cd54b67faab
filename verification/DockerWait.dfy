/** The goroutine behind dockerEngine.WaitContainer: one select over the raw result, the raw error and the context,
    one optional send into a one-slot channel, one close. */
module DockerWait {
  import opened Outcomes

  datatype RawResult = RawResult(statusCode: int, message: Option<string>)

  datatype WaitResult = WaitResult(statusCode: int, error: string)

  // Outcome of the select. A nil error on the error channel yields no result.
  datatype Stage = Selecting | Sending(r: WaitResult) | Leaving | Closed

  // result, error and cancelled: what the three channels of the select offer.
  datatype Wait = Wait(
    result: Option<RawResult>,
    error: Option<Option<string>>,
    cancelled: Option<string>,
    stage: Stage,
    buffer: seq<WaitResult>,
    received: seq<WaitResult>,
    sawNilError: bool)

  datatype Label =
    | OfferResult(r: RawResult)
    | OfferError(err: Option<string>)
    | Cancel(text: string)
    | TakeResult
    | TakeError
    | TakeCancel
    | Send
    | CloseOut
    | Receive

  const INIT: Wait := Wait(None, None, None, Selecting, [], [], false)

  function FromRaw(r: RawResult): WaitResult {
    WaitResult(r.statusCode, if r.message.Some? then r.message.value else "")
  }

  function Apply(s: Wait, l: Label): Wait {
    match l
    case OfferResult(r) => if s.result.Some? then s else s.(result := Some(r))
    case OfferError(err) => if s.error.Some? then s else s.(error := Some(err))
    case Cancel(text) => if s.cancelled.Some? then s else s.(cancelled := Some(text))
    case TakeResult =>
      if s.stage != Selecting || s.result.None? then s else s.(stage := Sending(FromRaw(s.result.value)))
    case TakeError =>
      if s.stage != Selecting || s.error.None? then s
      else (match s.error.value
            case Some(text) => s.(stage := Sending(WaitResult(0, text)))
            case None => s.(stage := Leaving, sawNilError := true))
    case TakeCancel =>
      if s.stage != Selecting || s.cancelled.None? then s else s.(stage := Sending(WaitResult(0, s.cancelled.value)))
    case Send =>
      if !s.stage.Sending? || |s.buffer| >= 1 then s else s.(stage := Leaving, buffer := s.buffer + [s.stage.r])
    case CloseOut => if s.stage != Leaving then s else s.(stage := Closed)
    case Receive =>
      if s.buffer == [] then s else s.(buffer := s.buffer[1..], received := s.received + [s.buffer[0]])
  }

  ghost function Exec(run: seq<Label>): Wait {
    if run == [] then INIT else Apply(Exec(run[..|run| - 1]), run[|run| - 1])
  }

  // A result the select may have produced.
  ghost predicate Offered(s: Wait, r: WaitResult) {
    || (s.result.Some? && r.statusCode == s.result.value.statusCode
        && r.error == if s.result.value.message.Some? then s.result.value.message.value else "")
    || (s.error.Some? && s.error.value.Some? && r == WaitResult(0, s.error.value.value))
    || (s.cancelled.Some? && r == WaitResult(0, s.cancelled.value))
  }

  // Nothing is delivered before the select is decided; afterwards exactly one result, and one that was offered,
  // except that a nil error closes the channel without any.
  ghost predicate Inv(s: Wait) {
    && (s.stage == Selecting || s.stage.Sending? ==> s.received + s.buffer == [] && !s.sawNilError)
    && (s.stage.Sending? ==> Offered(s, s.stage.r))
    && (s.stage == Leaving || s.stage == Closed ==> |s.received + s.buffer| == if s.sawNilError then 0 else 1)
    && (s.sawNilError ==> s.error == Some(None))
    && (forall r | r in s.received + s.buffer :: Offered(s, r))
  }

  lemma ReceiveKeepsInv(s: Wait)
    requires Inv(s)
    ensures Inv(Apply(s, Receive))
  {
    if s.buffer != [] {
      assert s.received + [s.buffer[0]] + s.buffer[1..] == s.received + s.buffer;
    }
  }

  lemma SendKeepsInv(s: Wait)
    requires Inv(s)
    ensures Inv(Apply(s, Send))
  {
    if s.stage.Sending? {
      assert |s.received + s.buffer| == 0;
      assert s.received + (s.buffer + [s.stage.r]) == [s.stage.r];
    }
  }

  lemma StepKeepsInv(s: Wait, l: Label)
    requires Inv(s)
    ensures Inv(Apply(s, l))
  {
    match l
    case Receive => ReceiveKeepsInv(s);
    case Send => SendKeepsInv(s);
    case _ =>
  }

  // At most one result before the single close, in every run.
  lemma {:induction false} AtMostOneResult(run: seq<Label>)
    ensures var s := Exec(run);
            && (s.stage == Closed ==>
                |s.received + s.buffer| == if s.error == Some(None) && s.sawNilError then 0 else 1)
            && (forall r | r in s.received + s.buffer :: Offered(s, r))
    ensures Inv(Exec(run))
  {
    if run != [] {
      AtMostOneResult(run[..|run| - 1]);
      StepKeepsInv(Exec(run[..|run| - 1]), run[|run| - 1]);
    }
  }

  // The send never blocks: whenever it is reached, the one-slot channel is empty, read or not.
  lemma SendNeverBlocks(run: seq<Label>)
    requires Exec(run).stage.Sending?
    ensures Exec(run).buffer == [] && Apply(Exec(run), Send).stage == Leaving
    ensures Apply(Exec(run), Send).buffer == [Exec(run).stage.r]
  {
    AtMostOneResult(run);
    var s := Exec(run);
    assert |s.received + s.buffer| == |s.received| + |s.buffer|;
  }
}
