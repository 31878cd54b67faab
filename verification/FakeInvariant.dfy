/** What every reachable state of the concurrent engine satisfies. */
module FakeInvariant {
  import opened Outcomes
  import opened Decimal
  import opened FakeStore
  import opened FakeSystem
  import Ports

  // Container objects never share an id, and the map leads to the object of that id.
  ghost predicate IdsInv(s: Store)
    requires Refs(s)
  {
    && (forall i, j | 0 <= i < |s.objs| && 0 <= j < |s.objs| && s.objs[i].id == s.objs[j].id :: i == j)
    && (forall id | id in s.containers :: s.objs[s.containers[id]].id == id)
  }

  // A container object, live or removed, is running exactly when the map holds a channel for its id.
  ghost predicate RunningInv(s: Store) {
    forall o | 0 <= o < |s.objs| :: s.objs[o].phase == Running <==> s.objs[o].id in s.waitChs
  }

  // The id under which channel t is filed, that of the container that made it.
  ghost function OwnerID(s: Store, t: nat): ContainerID
    requires t < |s.chans| && s.chans[t].owner < |s.objs|
  {
    s.objs[s.chans[t].owner].id
  }

  // The open channels are exactly the ones in the map, each under its owner's id.
  ghost predicate OpenInv(s: Store)
    requires Refs(s)
  {
    && (forall t | 0 <= t < |s.chans| :: s.chans[t].owner < |s.objs|)
    && (forall id | id in s.waitChs :: !s.chans[s.waitChs[id]].closed && OwnerID(s, s.waitChs[id]) == id)
    && (forall t | 0 <= t < |s.chans| && !s.chans[t].closed ::
          OwnerID(s, t) in s.waitChs && s.waitChs[OwnerID(s, t)] == t)
  }

  ghost predicate SignalInv(s: Store)
    requires Refs(s)
  {
    RunningInv(s) && OpenInv(s)
  }

  // Only live containers are members and no empty member set is kept.
  ghost predicate MembersOf(m: map<NetworkID, set<ContainerID>>, live: set<ContainerID>) {
    forall net | net in m :: m[net] != {} && m[net] <= live
  }

  ghost predicate StoreInv(s: Store) {
    Refs(s) && IdsInv(s) && SignalInv(s) && MembersOf(s.netMembers, s.containers.Keys)
  }

  // Only container o carries its id.
  lemma OnlyOwner(s: Store, id: ContainerID)
    requires Refs(s) && IdsInv(s) && id in s.containers
    ensures s.objs[s.containers[id]].id == id
    ensures forall i | 0 <= i < |s.objs| && i != s.containers[id] :: s.objs[i].id != id
  {
  }

  // IdsInv depends on the names of the objects only.
  lemma IdsStable(s: Store, r: Store)
    requires Refs(s) && Refs(r) && IdsInv(s)
    requires |r.objs| == |s.objs| && forall i | 0 <= i < |s.objs| :: r.objs[i].id == s.objs[i].id
    requires forall id | id in r.containers :: id in s.containers && r.containers[id] == s.containers[id]
    ensures IdsInv(r)
  {
  }

  lemma StartKeepsOpen(s: Store, id: ContainerID)
    requires Refs(s) && OpenInv(s) && id in s.containers && id !in s.waitChs
    requires s.objs[s.containers[id]].id == id && s.objs[s.containers[id]].phase != Running
    ensures OpenInv(StartStep(s, id).0)
  {
    var r := StartStep(s, id).0;
    forall t | 0 <= t < |s.chans| ensures r.chans[t] == s.chans[t] && OwnerID(r, t) == OwnerID(s, t) {
    }
    var n := |s.chans|;
    assert r.chans[n] == Chan(s.containers[id], false) && OwnerID(r, n) == id && r.waitChs[id] == n;
    forall x | x in r.waitChs ensures !r.chans[r.waitChs[x]].closed && OwnerID(r, r.waitChs[x]) == x {
      assert x != id ==> r.waitChs[x] == s.waitChs[x];
    }
    forall t | 0 <= t < |r.chans| && !r.chans[t].closed
      ensures OwnerID(r, t) in r.waitChs && r.waitChs[OwnerID(r, t)] == t
    {
      assert t < n ==> r.waitChs[OwnerID(s, t)] == s.waitChs[OwnerID(s, t)];
    }
  }

  lemma StartKeepsSignals(s: Store, id: ContainerID)
    requires Refs(s) && IdsInv(s) && SignalInv(s) && id in s.containers && s.objs[s.containers[id]].phase != Running
    ensures SignalInv(StartStep(s, id).0)
  {
    OnlyOwner(s, id);
    assert id !in s.waitChs;
    assert RunningInv(StartStep(s, id).0);
    StartKeepsOpen(s, id);
  }

  lemma StartKeepsInv(s: Store, id: ContainerID)
    requires StoreInv(s)
    ensures StoreInv(StartStep(s, id).0)
  {
    if id in s.containers && s.objs[s.containers[id]].phase != Running {
      StartKeepsSignals(s, id);
      IdsStable(s, StartStep(s, id).0);
    }
  }

  lemma StopKeepsOpen(s: Store, id: ContainerID)
    requires Refs(s) && OpenInv(s) && id in s.containers && s.objs[s.containers[id]].phase == Running && id in s.waitChs
    ensures OpenInv(StopStep(s, id).0)
  {
    var r := StopStep(s, id).0;
    forall t | 0 <= t < |s.chans|
      ensures OwnerID(r, t) == OwnerID(s, t)
              && r.chans[t] == if t == s.waitChs[id] then s.chans[t].(closed := true) else s.chans[t]
    {
    }
  }

  lemma StopKeepsSignals(s: Store, id: ContainerID)
    requires Refs(s) && IdsInv(s) && SignalInv(s) && id in s.containers && s.objs[s.containers[id]].phase == Running
    ensures SignalInv(StopStep(s, id).0)
  {
    OnlyOwner(s, id);
    assert id in s.waitChs;
    assert RunningInv(StopStep(s, id).0);
    StopKeepsOpen(s, id);
  }

  lemma StopKeepsInv(s: Store, id: ContainerID)
    requires StoreInv(s)
    ensures StoreInv(StopStep(s, id).0)
  {
    if id in s.containers && s.objs[s.containers[id]].phase == Running {
      StopKeepsSignals(s, id);
      IdsStable(s, StopStep(s, id).0);
    }
  }

  lemma LeaveAllMembers(m: map<NetworkID, set<ContainerID>>, id: ContainerID, live: set<ContainerID>)
    requires MembersOf(m, live)
    ensures MembersOf(LeaveAll(m, id), live - {id})
  {
  }

  lemma {:induction false} JoinAllMembers(m: map<NetworkID, set<ContainerID>>, nets: seq<NetworkID>, id: ContainerID,
                                          live: set<ContainerID>)
    requires MembersOf(m, live) && id in live
    ensures MembersOf(JoinAll(m, nets, id), live)
  {
    if nets != [] {
      JoinAllMembers(m, nets[..|nets| - 1], id, live);
    }
  }

  lemma RemoveKeepsInv(s: Store, id: ContainerID, force: bool)
    requires StoreInv(s)
    ensures StoreInv(RemoveStep(s, id, force).0)
  {
    LeaveAllMembers(s.netMembers, id, s.containers.Keys);
  }

  lemma JoinMembers(m: map<NetworkID, set<ContainerID>>, net: NetworkID, id: ContainerID, live: set<ContainerID>)
    requires MembersOf(m, live) && id in live
    ensures MembersOf(Join(m, net, id), live)
  {
  }

  lemma LeaveMembers(m: map<NetworkID, set<ContainerID>>, net: NetworkID, id: ContainerID, live: set<ContainerID>)
    requires MembersOf(m, live)
    ensures MembersOf(Leave(m, net, id), live)
  {
  }

  // The network operations touch nothing the rest of the invariant speaks of.
  lemma NetworksKeepInv(s: Store, nets: map<NetworkID, Network>, m: map<NetworkID, set<ContainerID>>)
    requires StoreInv(s) && MembersOf(m, s.containers.Keys)
    ensures StoreInv(s.(networks := nets, netMembers := m))
  {
  }

  lemma NetworkOpKeepsInv(s: Store, op: Op)
    requires StoreInv(s) && !op.Start? && !op.Stop? && !op.Remove?
    ensures StoreInv(ApplyOp(s, op).0)
  {
    var r := ApplyOp(s, op).0;
    if op.Connect? && op.id in s.containers {
      JoinMembers(s.netMembers, op.net, op.id, s.containers.Keys);
    } else if op.Disconnect? {
      LeaveMembers(s.netMembers, op.net, op.id, s.containers.Keys);
    }
    NetworksKeepInv(s, r.networks, r.netMembers);
  }

  lemma OpKeepsInv(s: Store, op: Op)
    requires StoreInv(s)
    ensures StoreInv(ApplyOp(s, op).0)
  {
    match op
    case Start(id) => StartKeepsInv(s, id);
    case Stop(id) => StopKeepsInv(s, id);
    case Remove(id, force) => RemoveKeepsInv(s, id, force);
    case _ => NetworkOpKeepsInv(s, op);
  }

  lemma InsertKeepsSignals(s: Store, id: ContainerID, spec: Spec, ports: seq<Ports.Port>)
    requires Refs(s) && SignalInv(s) && forall o | 0 <= o < |s.objs| :: s.objs[o].id != id
    ensures SignalInv(InsertStep(s, id, spec, ports))
  {
    var r := InsertStep(s, id, spec, ports);
    assert id !in s.waitChs;
    assert forall i | 0 <= i < |s.objs| :: r.objs[i] == s.objs[i];
    forall t | 0 <= t < |s.chans| ensures OwnerID(r, t) == OwnerID(s, t) {
    }
  }

  lemma InsertKeepsInv(s: Store, id: ContainerID, spec: Spec, ports: seq<Ports.Port>)
    requires StoreInv(s)
    requires forall o | 0 <= o < |s.objs| :: s.objs[o].id != id
    ensures StoreInv(InsertStep(s, id, spec, ports))
  {
    InsertKeepsSignals(s, id, spec, ports);
    JoinAllMembers(s.netMembers, spec.networks, id, s.containers.Keys + {id});
    var r := InsertStep(s, id, spec, ports);
    assert r.containers.Keys == s.containers.Keys + {id};
    assert forall i | 0 <= i < |s.objs| :: r.objs[i] == s.objs[i];
  }

  // id came from one of the first n increments of the id counter.
  ghost predicate IssuedBy(id: ContainerID, n: nat) {
    exists k :: 1 <= k <= n && id == IdOf(k)
  }

  lemma IdInjective(m: nat, n: nat)
    ensures IdOf(m) == IdOf(n) <==> m == n
  {
    if IdOf(m) == IdOf(n) {
      assert IdOf(m)[5..] == Format(m) && IdOf(n)[5..] == Format(n);
      FormatInjective(m, n);
    }
  }

  lemma NextIdFresh(n: nat)
    ensures !IssuedBy(IdOf(n + 1), n) && IssuedBy(IdOf(n + 1), n + 1)
  {
    forall k | 1 <= k <= n ensures IdOf(k) != IdOf(n + 1) {
      IdInjective(k, n + 1);
    }
  }

  // Ids handed out but not yet inserted are distinct and belong to no container, past or present.
  ghost predicate CreatorsInv(y: System) {
    && y.store.counter == y.issued
    && (forall o | 0 <= o < |y.store.objs| :: IssuedBy(y.store.objs[o].id, y.issued))
    && (forall c | c in y.creators :: IssuedBy(y.creators[c].id, y.issued))
    && (forall c, o | c in y.creators && 0 <= o < |y.store.objs| :: y.store.objs[o].id != y.creators[c].id)
    && (forall c, d | c in y.creators && d in y.creators && y.creators[c].id == y.creators[d].id :: c == d)
  }

  // A waiter's channel, if any, was made by a start of the very container it points at. Its own channel
  // carries no result before it is resolved, exactly one when it is, and is closed only after that.
  ghost predicate WaiterInv(s: Store, w: Waiter) {
    && WaiterRefs(s, w)
    && (w.stopCh.Some? ==> s.chans[w.stopCh.value].owner == w.obj)
    && (w.stage == Snapped || w.stage == Blocked ==> w.buffered + w.received == [])
    && (w.stage == Blocked ==> w.stopCh.Some?)
    && (w.stage == Sent || w.stage == Closed ==> |w.received + w.buffered| == 1)
  }

  ghost predicate WaitersInv(y: System) {
    forall w | w in y.waiters :: WaiterInv(y.store, y.waiters[w])
  }

  ghost predicate Inv(y: System) {
    StoreInv(y.store) && CreatorsInv(y) && WaitersInv(y)
  }

  lemma IssuedMonotone(id: ContainerID, m: nat, n: nat)
    requires IssuedBy(id, m) && m <= n
    ensures IssuedBy(id, n)
  {
  }

  lemma CountersKeepInv(s: Store, c: uint64, e: uint64)
    requires StoreInv(s)
    ensures StoreInv(s.(counter := c, ephemeralPort := e))
  {
  }

  // A waiter's record stays good while objects and channels are only added and channels keep their owner.
  lemma WaitersStable(y: System, r: System)
    requires WaitersInv(y) && r.waiters == y.waiters
    requires |r.store.objs| >= |y.store.objs| && |r.store.chans| >= |y.store.chans|
    requires forall t | 0 <= t < |y.store.chans| :: r.store.chans[t].owner == y.store.chans[t].owner
    ensures WaitersInv(r)
  {
  }

  lemma ReserveCreators(y: System, caller: Caller, k: Creator, r: System)
    requires CreatorsInv(y) && caller !in y.creators && k.id == IdOf(y.issued + 1)
    requires r.creators == y.creators[caller := k] && r.issued == y.issued + 1
    requires r.store.objs == y.store.objs && r.store.counter == r.issued
    ensures CreatorsInv(r)
  {
    NextIdFresh(y.issued);
    forall id | IssuedBy(id, y.issued) ensures IssuedBy(id, y.issued + 1) && id != k.id {
      IssuedMonotone(id, y.issued, y.issued + 1);
    }
  }

  lemma ReserveKeepsInv(y: System, caller: Caller, spec: Spec)
    requires Inv(y) && y.issued + 1 < TWO64
    ensures Inv(ApplyReserve(y, caller, spec))
  {
    var r := ApplyReserve(y, caller, spec);
    if caller !in y.creators && spec.image != "" {
      CountersKeepInv(y.store, r.store.counter, r.store.ephemeralPort);
      ReserveCreators(y, caller, r.creators[caller], r);
      WaitersStable(y, r);
    }
  }

  lemma CreatorsInvStable(y: System, r: System)
    requires CreatorsInv(y) && r.creators == y.creators && r.issued == y.issued && r.store.counter == y.store.counter
    requires |r.store.objs| == |y.store.objs|
            && forall o | 0 <= o < |y.store.objs| :: r.store.objs[o].id == y.store.objs[o].id
    ensures CreatorsInv(r)
  {
  }

  // The locked operations change no container's identity and no channel's owner.
  lemma OpKeepsNames(s: Store, op: Op)
    requires Refs(s)
    ensures forall o | 0 <= o < |s.objs| ::
            ApplyOp(s, op).0.objs[o].(phase := s.objs[o].phase, logs := s.objs[o].logs) == s.objs[o]
    ensures forall t | 0 <= t < |s.chans| :: ApplyOp(s, op).0.chans[t].owner == s.chans[t].owner
  {
  }

  lemma LockedKeepsInv(y: System, op: Op)
    requires Inv(y)
    ensures Inv(Apply(y, Locked(op)))
  {
    OpKeepsInv(y.store, op);
    OpKeepsNames(y.store, op);
    CreatorsInvStable(y, Apply(y, Locked(op)));
  }

  lemma ResolvePortKeepsNames(y: System, caller: Caller)
    ensures var r := ApplyResolvePort(y, caller);
            && r == y.(store := y.store.(ephemeralPort := r.store.ephemeralPort), creators := r.creators,
                draws := r.draws)
            && r.creators.Keys == y.creators.Keys
            && forall c | c in r.creators :: r.creators[c].id == y.creators[c].id
  {
  }

  lemma SameCreatorIds(y: System, r: System)
    requires CreatorsInv(y) && r.issued == y.issued && r.store.counter == y.store.counter
            && r.store.objs == y.store.objs
    requires r.creators.Keys == y.creators.Keys && forall c | c in r.creators :: r.creators[c].id == y.creators[c].id
    ensures CreatorsInv(r)
  {
  }

  lemma ResolvePortKeepsInv(y: System, caller: Caller)
    requires Inv(y)
    ensures Inv(ApplyResolvePort(y, caller))
  {
    var r := ApplyResolvePort(y, caller);
    ResolvePortKeepsNames(y, caller);
    CountersKeepInv(y.store, r.store.counter, r.store.ephemeralPort);
    SameCreatorIds(y, r);
    WaitersStable(y, r);
  }

  lemma InsertedKeepsInv(y: System, caller: Caller, ports: seq<Ports.Port>)
    requires Inv(y)
    ensures Inv(ApplyInsert(y, caller, ports))
  {
    if CanInsert(y, caller, ports) {
      var k := y.creators[caller];
      InsertKeepsInv(y.store, k.id, k.spec, ports);
    }
  }

  // A move changes no waiter but its own, and of that one never the two pointers.
  lemma MoveIsLocal(y: System, caller: Caller, move: Move, w: Caller)
    requires SystemRefs(y)
    ensures var r := ApplyMove(y, caller, move);
            && (w != caller ==> (w in r.waiters <==> w in y.waiters))
            && (w in y.waiters ==>
                  && w in r.waiters
                  && r.waiters[w] == (if w == caller then MoveWaiter(y.store, y.waiters[w], CtxOf(y, w), move)
                                      else y.waiters[w]))
            && (w in r.waiters && w !in y.waiters ==>
                  && w == caller && move.Snapshot? && move.id in y.store.containers
                  && r.waiters[w] == TakeSnapshot(y.store, move.id))
  {
  }

  lemma SnapshotKeepsWaiter(s: Store, id: ContainerID)
    requires StoreInv(s) && id in s.containers
    ensures WaiterInv(s, TakeSnapshot(s, id))
  {
    OnlyOwner(s, id);
  }

  lemma SendKeepsWaiter(s: Store, w: Waiter, r: WaitResult)
    requires WaiterInv(s, w) && (w.stage == Snapped || w.stage == Blocked)
    ensures WaiterInv(s, Send(w, r)) && Send(w, r).stage == Sent && Send(w, r).received + Send(w, r).buffered == [r]
  {
    assert |w.buffered + w.received| == 0;
  }

  // Taking a result out of the channel moves it, no more.
  lemma ReceivingMoves(me: Waiter)
    ensures me.buffered != [] ==> me.received + [me.buffered[0]] + me.buffered[1..] == me.received + me.buffered
  {
  }

  lemma MoveKeepsWaiter(s: Store, w: Waiter, ctx: Option<CtxError>, move: Move)
    requires WaiterInv(s, w)
    ensures WaiterInv(s, MoveWaiter(s, w, ctx, move))
  {
    if w.stage == Snapped || w.stage == Blocked {
      SendKeepsWaiter(s, w, WaitResult(0, ""));
      if ctx.Some? {
        SendKeepsWaiter(s, w, WaitResult(0, ErrorText(ctx.value)));
      }
    }
    ReceivingMoves(w);
  }

  lemma MoveKeepsInv(y: System, caller: Caller, move: Move)
    requires Inv(y)
    ensures Inv(ApplyMove(y, caller, move))
  {
    var r := ApplyMove(y, caller, move);
    forall w | w in r.waiters ensures WaiterInv(r.store, r.waiters[w]) {
      MoveIsLocal(y, caller, move, w);
      if w !in y.waiters {
        SnapshotKeepsWaiter(y.store, move.id);
      } else {
        MoveKeepsWaiter(y.store, y.waiters[w], CtxOf(y, w), move);
      }
    }
    CreatorsInvStable(y, r);
  }

  // One step keeps the invariant as long as the 64-bit id counter has not wrapped.
  lemma StepKeepsInv(y: System, l: Label)
    requires Inv(y) && Apply(y, l).issued < TWO64
    ensures Inv(Apply(y, l))
  {
    match l
    case Reserve(c, spec) =>
      if ApplyReserve(y, c, spec) != y {
        ReserveKeepsInv(y, c, spec);
      }
    case ResolvePort(c) => ResolvePortKeepsInv(y, c);
    case Insert(c, ports) => InsertedKeepsInv(y, c, ports);
    case Locked(op) => LockedKeepsInv(y, op);
    case Waiting(c, move) => MoveKeepsInv(y, c, move);
  }

  // Every state of every run satisfies the invariant while fewer than 2^64 ids have been issued.
  lemma {:induction false} ReachableInv(run: seq<Label>)
    requires Exec(run).issued < TWO64
    ensures Inv(Exec(run))
  {
    if run != [] {
      var before, l := run[..|run| - 1], run[|run| - 1];
      ReachableInv(before);
      StepKeepsInv(Exec(before), l);
    }
  }
}
