/** Removal: removed containers never change again, and a channel outlives its container exactly when
    the container was force-removed while running; that channel is then never closed. */
module FakeRemoval {
  import opened Outcomes
  import opened FakeStore
  import opened FakeSystem
  import opened FakeInvariant
  import opened FakeHistory
  import Ports

  // The map still holds a channel for a container that is no longer there.
  ghost predicate Leftover(s: Store, id: ContainerID) {
    id in s.waitChs && id !in s.containers
  }

  // No container has this id and none can get it: it was taken by object o.
  ghost predicate Gone(y: System, o: nat) {
    o < |y.store.objs| && y.store.objs[o].id !in y.store.containers
  }

  // Object o with its id, its place outside the map and its leftover channel, if any, are as in s.
  ghost predicate SameGone(s: Store, r: Store, o: nat)
    requires Refs(s) && Refs(r) && o < |s.objs|
  {
    var id := s.objs[o].id;
    && o < |r.objs| && r.objs[o] == s.objs[o] && id !in r.containers
    && (id in r.waitChs <==> id in s.waitChs)
    && (id in s.waitChs ==> r.waitChs[id] == s.waitChs[id] && s.waitChs[id] < |r.chans|
                            && r.chans[s.waitChs[id]] == s.chans[s.waitChs[id]])
  }

  lemma StartKeepsGone(s: Store, id: ContainerID, o: nat)
    requires StoreInv(s) && o < |s.objs| && s.objs[o].id !in s.containers
    ensures SameGone(s, StartStep(s, id).0, o)
  {
    if id in s.containers { OnlyOwner(s, id); }
  }

  lemma StopKeepsGone(s: Store, id: ContainerID, o: nat)
    requires StoreInv(s) && o < |s.objs| && s.objs[o].id !in s.containers
    ensures SameGone(s, StopStep(s, id).0, o)
  {
    if id in s.containers {
      OnlyOwner(s, id);
      if id in s.waitChs && s.objs[o].id in s.waitChs {
        assert s.waitChs[id] != s.waitChs[s.objs[o].id];
      }
    }
  }

  lemma RemoveKeepsGone(s: Store, id: ContainerID, force: bool, o: nat)
    requires Refs(s) && o < |s.objs| && s.objs[o].id !in s.containers
    ensures SameGone(s, RemoveStep(s, id, force).0, o)
  {
  }

  lemma NetworkOpKeepsGone(s: Store, op: Op, o: nat)
    requires Refs(s) && o < |s.objs| && s.objs[o].id !in s.containers && !op.Start? && !op.Stop? && !op.Remove?
    ensures SameGone(s, ApplyOp(s, op).0, o)
  {
  }

  lemma OpKeepsGone(s: Store, op: Op, o: nat)
    requires StoreInv(s) && o < |s.objs| && s.objs[o].id !in s.containers
    ensures SameGone(s, ApplyOp(s, op).0, o)
  {
    match op
    case Start(id) => StartKeepsGone(s, id, o);
    case Stop(id) => StopKeepsGone(s, id, o);
    case Remove(id, force) => RemoveKeepsGone(s, id, force, o);
    case _ => NetworkOpKeepsGone(s, op, o);
  }

  lemma InsertKeepsGone(y: System, caller: Caller, ports: seq<Ports.Port>, o: nat)
    requires Inv(y) && Gone(y, o)
    ensures SameGone(y.store, ApplyInsert(y, caller, ports).store, o)
  {
  }

  // What a step leaves alone when it is neither a locked operation nor an insertion.
  ghost predicate SameRecords(s: Store, r: Store) {
    r.objs == s.objs && r.containers == s.containers && r.waitChs == s.waitChs && r.chans == s.chans
  }

  lemma ReserveKeepsRecords(y: System, caller: Caller, spec: Spec)
    ensures SameRecords(y.store, ApplyReserve(y, caller, spec).store)
  {
  }

  lemma OthersKeepRecords(y: System, l: Label)
    requires SystemRefs(y) && !l.Locked? && !l.Insert?
    ensures SameRecords(y.store, Apply(y, l).store)
  {
    match l
    case Reserve(c, spec) => ReserveKeepsRecords(y, c, spec);
    case ResolvePort(c) => ResolvePortKeepsNames(y, c);
    case Waiting(c, move) =>
  }

  // One step leaves a removed container, its id and its channel as they were.
  lemma GoneStep(y: System, l: Label, o: nat)
    requires Inv(y) && Gone(y, o)
    ensures SameGone(y.store, Apply(y, l).store, o)
  {
    match l
    case Locked(op) => OpKeepsGone(y.store, op, o);
    case Insert(c, ports) => InsertKeepsGone(y, c, ports, o);
    case _ => OthersKeepRecords(y, l);
  }

  // In every continuation a removed container stays removed and unchanged, its id is not used again, and a channel
  // it left behind stays in the map and open.
  lemma {:induction false} RemovedForever(run: seq<Label>, more: seq<Label>, o: nat)
    requires Exec(run + more).issued < TWO64 && Gone(Exec(run), o)
    ensures var s, r := Exec(run).store, Exec(run + more).store;
            && SameGone(s, r, o)
            && (s.objs[o].id in s.waitChs ==> !r.chans[s.waitChs[s.objs[o].id]].closed)
    decreases |more|
  {
    if more == [] {
      assert run + more == run;
      ReachableInv(run);
    } else {
      var n := |more| - 1;
      assert run + more == run + more[..n] + [more[n]];
      IssuedOnlyGrows(run + more[..n], more[n]);
      LastStep(run + more[..n], more[n]);
      RemovedForever(run, more[..n], o);
      ReachableInv(run + more[..n]);
      ReachableInv(run + more);
      GoneStep(Exec(run + more[..n]), more[n], o);
    }
  }

  // The label removes the running container id by force.
  ghost predicate Forces(y: System, l: Label, id: ContainerID)
    requires Refs(y.store)
  {
    && l == Locked(Remove(id, true))
    && id in y.store.containers && y.store.objs[y.store.containers[id]].phase == Running
  }

  ghost predicate ForcedAt(run: seq<Label>, j: nat, id: ContainerID) {
    j < |run| && Forces(Exec(run[..j]), run[j], id)
  }

  lemma LeftoverStartStop(s: Store, id: ContainerID, x: ContainerID)
    requires StoreInv(s)
    ensures Leftover(StartStep(s, x).0, id) <==> Leftover(s, id)
    ensures Leftover(StopStep(s, x).0, id) <==> Leftover(s, id)
  {
  }

  lemma LeftoverRemove(s: Store, id: ContainerID, x: ContainerID, force: bool)
    requires StoreInv(s)
    ensures Leftover(RemoveStep(s, x, force).0, id) <==>
            Leftover(s, id) || (force && x == id && id in s.containers && s.objs[s.containers[id]].phase == Running)
  {
    if id in s.containers { OnlyOwner(s, id); }
  }

  lemma LeftoverOp(s: Store, op: Op, id: ContainerID)
    requires StoreInv(s)
    ensures Leftover(ApplyOp(s, op).0, id) <==>
            Leftover(s, id) || (op == Remove(id, true) && id in s.containers
                && s.objs[s.containers[id]].phase == Running)
  {
    match op
    case Start(x) => LeftoverStartStop(s, id, x);
    case Stop(x) => LeftoverStartStop(s, id, x);
    case Remove(x, force) => LeftoverRemove(s, id, x, force);
    case _ =>
  }

  lemma LeftoverInsert(y: System, caller: Caller, ports: seq<Ports.Port>, id: ContainerID)
    requires Inv(y)
    ensures Leftover(ApplyInsert(y, caller, ports).store, id) <==> Leftover(y.store, id)
  {
    if CanInsert(y, caller, ports) && id in y.store.waitChs {
      var o := y.store.chans[y.store.waitChs[id]].owner;
      assert y.store.objs[o].id == id != y.creators[caller].id;
    }
  }

  lemma LeftoverStep(y: System, l: Label, id: ContainerID)
    requires Inv(y)
    ensures Leftover(Apply(y, l).store, id) <==> Leftover(y.store, id) || Forces(y, l, id)
  {
    match l
    case Locked(op) => LeftoverOp(y.store, op, id);
    case Insert(c, ports) => LeftoverInsert(y, c, ports, id);
    case _ => OthersKeepRecords(y, l);
  }

  ghost predicate EverForced(run: seq<Label>, id: ContainerID) {
    exists j: nat :: ForcedAt(run, j, id)
  }

  lemma ForcedPrefix(run: seq<Label>, l: Label, j: nat, id: ContainerID)
    requires j < |run|
    ensures ForcedAt(run + [l], j, id) <==> ForcedAt(run, j, id)
  {
    assert (run + [l])[..j] == run[..j];
  }

  lemma ForcedLast(run: seq<Label>, l: Label, id: ContainerID)
    ensures ForcedAt(run + [l], |run|, id) <==> Forces(Exec(run), l, id)
  {
    assert (run + [l])[..|run|] == run;
  }

  lemma ForcedExtends(run: seq<Label>, l: Label, id: ContainerID)
    ensures EverForced(run + [l], id) <==> EverForced(run, id) || Forces(Exec(run), l, id)
  {
    ForcedLast(run, l, id);
    if EverForced(run, id) {
      var j: nat :| ForcedAt(run, j, id);
      ForcedPrefix(run, l, j, id);
    }
    if EverForced(run + [l], id) {
      var j: nat :| ForcedAt(run + [l], j, id);
      if j < |run| {
        ForcedPrefix(run, l, j, id);
      }
    }
  }

  // Leftover channels belong exactly to the containers that were force-removed while running.
  lemma {:induction false} LeftoverIffForced(run: seq<Label>, id: ContainerID)
    requires Exec(run).issued < TWO64
    ensures Leftover(Exec(run).store, id) <==> EverForced(run, id)
  {
    if run != [] {
      var before, l := run[..|run| - 1], run[|run| - 1];
      assert run == before + [l];
      IssuedOnlyGrows(before, l);
      LastStep(before, l);
      ReachableInv(before);
      LeftoverIffForced(before, id);
      LeftoverStep(Exec(before), l, id);
      ForcedExtends(before, l, id);
    }
  }

  // Blocked on a container that is gone, with neither the channel closed nor the context cancelled.
  ghost predicate Hung(y: System, w: Caller)
    requires SystemRefs(y)
  {
    && w in y.waiters && w !in y.cancelled
    && var me := y.waiters[w];
    && me.stage == Blocked && !Signalled(y.store, me) && Gone(y, me.obj)
  }

  predicate CancelsCtx(l: Label, w: Caller) {
    l.Waiting? && l.move.Cancel? && l.caller == w
  }

  lemma HungChannelStays(y: System, l: Label, w: Caller)
    requires Inv(y) && Hung(y, w)
    ensures !Signalled(Apply(y, l).store, y.waiters[w]) && Gone(Apply(y, l), y.waiters[w].obj)
  {
    GoneStep(y, l, y.waiters[w].obj);
  }

  lemma OthersCancelOthers(y: System, l: Label, w: Caller)
    requires SystemRefs(y) && w !in y.cancelled && !CancelsCtx(l, w)
    ensures w !in Apply(y, l).cancelled
  {
  }

  // Only the channel or the context can move a blocked waiter.
  lemma BlockedStays(y: System, l: Label, w: Caller)
    requires SystemRefs(y) && w in y.waiters && w !in y.cancelled
    requires y.waiters[w].stage == Blocked && y.waiters[w].buffered == [] && !Signalled(y.store, y.waiters[w])
    ensures w in Apply(y, l).waiters && Apply(y, l).waiters[w] == y.waiters[w]
  {
    WaiterPersists(y, l, w);
  }

  lemma HungStep(y: System, l: Label, w: Caller)
    requires Inv(y) && Hung(y, w) && !CancelsCtx(l, w)
    ensures Hung(Apply(y, l), w) && Apply(y, l).waiters[w] == y.waiters[w]
  {
    HungChannelStays(y, l, w);
    OthersCancelOthers(y, l, w);
    BlockedStays(y, l, w);
  }

  // Such a waiter stays as it is in every continuation in which its own context is not cancelled.
  lemma {:induction false} HungForever(run: seq<Label>, more: seq<Label>, w: Caller)
    requires Exec(run + more).issued < TWO64 && Hung(Exec(run), w)
    requires forall l | l in more :: !CancelsCtx(l, w)
    ensures Hung(Exec(run + more), w) && Exec(run + more).waiters[w] == Exec(run).waiters[w]
    decreases |more|
  {
    if more == [] {
      assert run + more == run;
    } else {
      var n := |more| - 1;
      assert more[n] in more;
      assert run + more == run + more[..n] + [more[n]];
      IssuedOnlyGrows(run + more[..n], more[n]);
      LastStep(run + more[..n], more[n]);
      HungForever(run, more[..n], w);
      ReachableInv(run + more[..n]);
      HungStep(Exec(run + more[..n]), more[n], w);
    }
  }

  // A waiter blocked on the container with this id, with neither its channel closed nor its context cancelled.
  ghost predicate WaitsOn(y: System, w: Caller, id: ContainerID)
    requires SystemRefs(y)
  {
    && w in y.waiters && w !in y.cancelled
    && var me := y.waiters[w];
    && me.stage == Blocked && !Signalled(y.store, me) && y.store.objs[me.obj].id == id
  }

  lemma ForcingHangs(y: System, l: Label, w: Caller, id: ContainerID)
    requires SystemRefs(y) && WaitsOn(y, w, id) && Forces(y, l, id)
    ensures Hung(Apply(y, l), w) && Apply(y, l).waiters[w] == y.waiters[w]
  {
    var r := RemoveStep(y.store, id, true).0;
    assert Apply(y, l) == y.(store := r);
    assert r.objs == y.store.objs && r.chans == y.store.chans && id !in r.containers;
  }

  // Removing a running container by force strands every waiter blocked on it: in every continuation in which its own
  // context is not cancelled it gets no answer, whatever anyone else does.
  lemma ForceRemovedWaiterHangs(run: seq<Label>, force: Label, id: ContainerID, more: seq<Label>, w: Caller)
    requires Exec(run + [force] + more).issued < TWO64
    requires WaitsOn(Exec(run), w, id) && Forces(Exec(run), force, id)
    requires forall l | l in more :: !CancelsCtx(l, w)
    ensures Hung(Exec(run + [force] + more), w) && Exec(run + [force] + more).waiters[w] == Exec(run).waiters[w]
  {
    LastStep(run, force);
    ForcingHangs(Exec(run), force, w, id);
    HungForever(run + [force], more, w);
  }
}
