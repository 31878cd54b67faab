/** The engine under concurrent use: any number of CreateContainer calls and waiters, interleaved in any way.

    A label is one atomic step: a counter increment, one locked section of FakeStore, the unlocked state read
    of WaitContainer, or one move of a waiter's goroutine. A run is a list of labels; a label that is not
    enabled changes nothing, so every list of labels is a run and every interleaving is covered. */
module FakeSystem {
  import opened Outcomes
  import opened Decimal
  import opened Ports
  import opened FakeStore

  type Caller = nat

  // A CreateContainer call between its id increment and its locked section.
  datatype Creator = Creator(id: ContainerID, spec: Spec, next: nat, resolved: seq<Port>)

  datatype WaitResult = WaitResult(statusCode: int, error: string)

  // Snapped: pointers taken, state not yet read. Blocked: goroutine in select.
  // Sent: result in the one-slot channel. Closed: channel closed.
  datatype Stage = Snapped | Blocked | Sent | Closed

  datatype Waiter = Waiter(obj: nat, stopCh: Option<nat>, stage: Stage, buffered: seq<WaitResult>,
      received: seq<WaitResult>)

  datatype CtxError = Canceled | DeadlineExceeded

  function ErrorText(e: CtxError): string {
    match e
    case Canceled => "context canceled"
    case DeadlineExceeded => "context deadline exceeded"
  }

  // An ephemeral port increment: who asked and what it got.
  datatype Draw = Draw(id: ContainerID, host: uint16)

  // issued and draws record the increments of the two counters since New.
  datatype System = System(
    store: Store,
    creators: map<Caller, Creator>,
    waiters: map<Caller, Waiter>,
    cancelled: map<Caller, CtxError>,
    issued: nat,
    draws: seq<Draw>)

  // What a WaitContainer call, its goroutine, the reader of its channel or the owner of its context can do next.
  datatype Move =
    | Snapshot(id: ContainerID)
    | Check
    | Wake
    | GiveUp
    | CloseOut
    | Receive
    | Cancel(why: CtxError)

  datatype Label =
    | Reserve(caller: Caller, spec: Spec)
    | ResolvePort(caller: Caller)
    | Insert(caller: Caller, ports: seq<Port>)
    | Locked(op: Op)
    | Waiting(caller: Caller, move: Move)

  const INIT: System := System(EMPTY, map[], map[], map[], 0, [])

  // A waiter's two pointers lead to an object and, if it holds one, a channel that exist.
  ghost predicate WaiterRefs(s: Store, w: Waiter) {
    w.obj < |s.objs| && (w.stopCh.Some? ==> w.stopCh.value < |s.chans|)
  }

  ghost predicate SystemRefs(y: System) {
    Refs(y.store) && forall w | w in y.waiters :: WaiterRefs(y.store, y.waiters[w])
  }

  function ApplyReserve(y: System, caller: Caller, spec: Spec): System {
    if caller in y.creators || spec.image == "" then y
    else
      var n := Add1(y.store.counter);
      y.(store := y.store.(counter := n),
         creators := y.creators[caller := Creator(IdOf(n), spec, 0, [])],
         issued := y.issued + 1)
  }

  // One iteration of the loop in resolveEphemeralPorts; only a zero host touches the shared counter.
  function ApplyResolvePort(y: System, caller: Caller): System {
    if caller !in y.creators || y.creators[caller].next >= |y.creators[caller].spec.ports| then y
    else
      var k := y.creators[caller];
      var p := k.spec.ports[k.next];
      if p.host != 0 then
        y.(creators := y.creators[caller := k.(next := k.next + 1, resolved := k.resolved + [Entry(p, p.host)])])
      else
        var n := Add1(y.store.ephemeralPort);
        y.(store := y.store.(ephemeralPort := n),
           creators := y.creators[caller := k.(next := k.next + 1, resolved := k.resolved + [Entry(p, Low16(n))])],
           draws := y.draws + [Draw(k.id, Low16(n))])
  }

  // Sorting touches nothing shared, so it is folded into the locked section; ports is whichever
  // sorted arrangement the unstable sort produced.
  ghost predicate CanInsert(y: System, caller: Caller, ports: seq<Port>) {
    && caller in y.creators
    && y.creators[caller].next == |y.creators[caller].spec.ports|
    && SortedPorts(ports, y.creators[caller].resolved)
  }

  ghost function ApplyInsert(y: System, caller: Caller, ports: seq<Port>): System
    requires Refs(y.store)
  {
    if !CanInsert(y, caller, ports) then y
    else
      var k := y.creators[caller];
      y.(store := InsertStep(y.store, k.id, k.spec, ports), creators := y.creators - {caller})
  }

  // WaitContainer under the read lock: the container pointer and whatever channel the map holds.
  function TakeSnapshot(s: Store, id: ContainerID): Waiter
    requires id in s.containers
  {
    Waiter(s.containers[id], if id in s.waitChs then Some(s.waitChs[id]) else None, Snapped, [], [])
  }

  // A send on the one-slot channel is enabled while the slot is free.
  function Send(w: Waiter, r: WaitResult): Waiter {
    if |w.buffered| >= 1 then w else w.(stage := Sent, buffered := w.buffered + [r])
  }

  predicate Signalled(s: Store, w: Waiter)
    requires w.stopCh.Some? ==> w.stopCh.value < |s.chans|
  {
    w.stopCh.Some? && s.chans[w.stopCh.value].closed
  }

  // The state read after unlocking: resolve at once or block.
  function CheckState(s: Store, w: Waiter): Waiter
    requires WaiterRefs(s, w)
  {
    if w.stage != Snapped then w
    else if s.objs[w.obj].phase != Running || w.stopCh.None? then Send(w, WaitResult(0, ""))
    else w.(stage := Blocked)
  }

  // What a waiter becomes by one move; ctx is the state of its own context.
  function MoveWaiter(s: Store, w: Waiter, ctx: Option<CtxError>, move: Move): (r: Waiter)
    requires WaiterRefs(s, w)
    ensures r.obj == w.obj && r.stopCh == w.stopCh
  {
    match move
    case Check => CheckState(s, w)
    case Wake =>
      if w.stage == Blocked && Signalled(s, w) then Send(w, WaitResult(0, "")) else w
    case GiveUp =>
      if w.stage == Blocked && ctx.Some? then Send(w, WaitResult(0, ErrorText(ctx.value))) else w
    case CloseOut =>
      if w.stage == Sent then w.(stage := Closed) else w
    case Receive =>
      if w.buffered == [] then w else w.(buffered := w.buffered[1..], received := w.received + [w.buffered[0]])
    case _ => w
  }

  function CtxOf(y: System, caller: Caller): Option<CtxError> {
    if caller in y.cancelled then Some(y.cancelled[caller]) else None
  }

  // A waiter's move writes nothing but its own record and its own context.
  function ApplyMove(y: System, caller: Caller, move: Move): (r: System)
    requires SystemRefs(y)
    ensures SystemRefs(r)
    ensures r == y.(waiters := r.waiters, cancelled := r.cancelled)
  {
    match move
    case Snapshot(id) =>
      if caller in y.waiters || id !in y.store.containers then y
      else y.(waiters := y.waiters[caller := TakeSnapshot(y.store, id)])
    case Cancel(why) =>
      if caller in y.cancelled then y else y.(cancelled := y.cancelled[caller := why])
    case _ =>
      if caller !in y.waiters then y
      else y.(waiters := y.waiters[caller := MoveWaiter(y.store, y.waiters[caller], CtxOf(y, caller), move)])
  }

  ghost function Apply(y: System, l: Label): (r: System)
    requires SystemRefs(y)
    ensures SystemRefs(r)
    ensures |y.store.objs| <= |r.store.objs| && |y.store.chans| <= |r.store.chans| && y.issued <= r.issued
  {
    match l
    case Reserve(c, spec) => ApplyReserve(y, c, spec)
    case ResolvePort(c) => ApplyResolvePort(y, c)
    case Insert(c, ports) => ApplyInsert(y, c, ports)
    case Locked(op) => y.(store := ApplyOp(y.store, op).0)
    case Waiting(c, move) => ApplyMove(y, c, move)
  }

  ghost function Exec(run: seq<Label>): (y: System)
    ensures SystemRefs(y)
  {
    if run == [] then INIT else Apply(Exec(run[..|run| - 1]), run[|run| - 1])
  }
}
