/** What a waiter's answer says about the past: statements over whole runs of the concurrent engine. */
module FakeHistory {
  import opened Outcomes
  import opened FakeStore
  import opened FakeSystem
  import opened FakeInvariant

  lemma LastStep(run: seq<Label>, l: Label)
    ensures Exec(run + [l]) == Apply(Exec(run), l)
  {
    assert (run + [l])[..|run + [l]| - 1] == run;
  }

  lemma IssuedOnlyGrows(run: seq<Label>, l: Label)
    ensures Exec(run).issued <= Exec(run + [l]).issued
  {
    LastStep(run, l);
  }

  // The last step of a run starts from a state that satisfies the invariant.
  lemma LastStepOf(run: seq<Label>) returns (before: seq<Label>, l: Label)
    requires run != [] && Exec(run).issued < TWO64
    ensures before == run[..|run| - 1] && l == run[|run| - 1] && run == before + [l]
    ensures Inv(Exec(before)) && Exec(run) == Apply(Exec(before), l) && Exec(before).issued < TWO64
  {
    before, l := run[..|run| - 1], run[|run| - 1];
    IssuedOnlyGrows(before, l);
    LastStep(before, l);
    ReachableInv(before);
  }

  // After the first j steps of the run, container object o exists and is not running.
  ghost predicate StoppedAt(run: seq<Label>, j: nat, o: nat) {
    && j <= |run|
    && var s := Exec(run[..j]).store; o < |s.objs| && s.objs[o].phase != Running
  }

  // Step i of the run is the snapshot of waiter w.
  ghost predicate SnapshotStep(run: seq<Label>, i: nat, w: Caller) {
    i < |run| && w !in Exec(run[..i]).waiters && w in Exec(run[..i + 1]).waiters
  }

  // The label stops container object o, and that closes channel t.
  ghost predicate StopCloses(s: Store, l: Label, r: Store, o: nat, t: nat) {
    && o < |s.objs| && o < |r.objs| && t < |s.chans| && t < |r.chans|
    && l == Locked(Stop(s.objs[o].id))
    && s.objs[o].phase == Running && r.objs[o].phase == Exited
    && !s.chans[t].closed && r.chans[t].closed
  }

  // Step k of the run is the stop, of container object o, that closed channel t.
  ghost predicate StopStepClosed(run: seq<Label>, k: nat, o: nat, t: nat) {
    k < |run| && StopCloses(Exec(run[..k]).store, run[k], Exec(run[..k + 1]).store, o, t)
  }

  // The three steps that resolve waiter w, with answer a. The state read, when it finds the container not running or
  // the snapshot found no channel.
  ghost predicate CheckResolves(y: System, l: Label, w: Caller, a: WaitResult)
    requires SystemRefs(y)
  {
    && l == Waiting(w, Check) && w in y.waiters && y.waiters[w].stage == Snapped
    && (y.waiters[w].stopCh.None? || y.store.objs[y.waiters[w].obj].phase != Running)
    && a == WaitResult(0, "")
  }

  // The closed stop channel.
  ghost predicate WakeResolves(y: System, l: Label, w: Caller, a: WaitResult)
    requires SystemRefs(y)
  {
    && l == Waiting(w, Wake) && w in y.waiters && y.waiters[w].stage == Blocked
    && Signalled(y.store, y.waiters[w])
    && a == WaitResult(0, "")
  }

  // The waiter's own context.
  ghost predicate ContextResolves(y: System, l: Label, w: Caller, a: WaitResult) {
    && l == Waiting(w, GiveUp) && w in y.waiters && y.waiters[w].stage == Blocked
    && w in y.cancelled
    && a == WaitResult(0, ErrorText(y.cancelled[w]))
  }

  ghost predicate Resolves(y: System, l: Label, w: Caller, a: WaitResult)
    requires SystemRefs(y)
  {
    CheckResolves(y, l, w, a) || WakeResolves(y, l, w, a) || ContextResolves(y, l, w, a)
  }

  // After step i and before step j, a stop of the container me points at closed the channel me holds.
  ghost predicate ClosedBetween(run: seq<Label>, i: nat, j: nat, me: Waiter) {
    me.stopCh.Some? && exists k :: i < k < j && StopStepClosed(run, k, me.obj, me.stopCh.value)
  }

  // Step j resolves waiter w, snapshotted at step i, with answer a; if by the channel, then the stop that closed it was
  // the stop, after the snapshot, of the very run the snapshot saw.
  ghost predicate ResolvedBy(run: seq<Label>, i: nat, j: nat, w: Caller, a: WaitResult) {
    && i < j < |run|
    && Resolves(Exec(run[..j]), run[j], w, a)
    && (WakeResolves(Exec(run[..j]), run[j], w, a) ==> ClosedBetween(run, i, j, Exec(run[..j]).waiters[w]))
  }

  predicate Answered(me: Waiter) {
    me.stage == Sent || me.stage == Closed
  }

  // A waiter keeps its two pointers, and only its own moves change its record.
  lemma WaiterPersists(y: System, l: Label, w: Caller)
    requires SystemRefs(y) && w in y.waiters
    ensures var r := Apply(y, l);
            && w in r.waiters && r.waiters[w].obj == y.waiters[w].obj && r.waiters[w].stopCh == y.waiters[w].stopCh
            && (!(l.Waiting? && l.caller == w) ==> r.waiters[w] == y.waiters[w])
            && (l.Waiting? && l.caller == w ==> r.waiters[w] == MoveWaiter(y.store, y.waiters[w], CtxOf(y, w), l.move))
  {
    if l.Waiting? {
      MoveIsLocal(y, l.caller, l.move, w);
    }
  }

  lemma OnlySnapshotAdds(y: System, l: Label, w: Caller)
    requires SystemRefs(y) && w !in y.waiters && w in Apply(y, l).waiters
    ensures l.Waiting? && l.caller == w && l.move.Snapshot? && l.move.id in y.store.containers
    ensures Apply(y, l).store == y.store && Apply(y, l).waiters[w] == TakeSnapshot(y.store, l.move.id)
  {
    if l.Waiting? {
      MoveIsLocal(y, l.caller, l.move, w);
    }
  }

  // What the snapshot learns: no channel in the map means not running, a channel in the map is open.
  lemma SnapshotSees(s: Store, id: ContainerID)
    requires StoreInv(s) && id in s.containers
    ensures var me := TakeSnapshot(s, id);
            && WaiterRefs(s, me) && !Signalled(s, me) && (me.stopCh.None? ==> s.objs[me.obj].phase != Running)
  {
    OnlyOwner(s, id);
  }

  // A new waiter is unresolved, its channel is open, and without a channel its container is at rest.
  lemma FreshWaiter(y: System, l: Label, w: Caller)
    requires Inv(y) && w !in y.waiters && w in Apply(y, l).waiters
    ensures var s, me := Apply(y, l).store, Apply(y, l).waiters[w];
            && !Signalled(s, me) && !Answered(me)
            && (me.stopCh.None? ==> s.objs[me.obj].phase != Running)
  {
    OnlySnapshotAdds(y, l, w);
    SnapshotSees(y.store, l.move.id);
  }

  lemma SnapshotBefore(run: seq<Label>, l: Label, i: nat, w: Caller)
    requires i < |run|
    ensures SnapshotStep(run + [l], i, w) <==> SnapshotStep(run, i, w)
  {
    assert (run + [l])[..i] == run[..i] && (run + [l])[..i + 1] == run[..i + 1];
  }

  lemma StoppedNow(run: seq<Label>, o: nat)
    requires o < |Exec(run).store.objs| && Exec(run).store.objs[o].phase != Running
    ensures StoppedAt(run, |run|, o)
  {
    assert run[..|run|] == run;
  }

  // A waiter without a channel points at a container that was at rest after step i.
  ghost predicate AtRest(run: seq<Label>, i: nat, w: Caller) {
    && w in Exec(run).waiters
    && (Exec(run).waiters[w].stopCh.None? ==> StoppedAt(run, i + 1, Exec(run).waiters[w].obj))
  }

  lemma AtRestAtSnapshot(run: seq<Label>, l: Label, w: Caller)
    requires Inv(Exec(run)) && w !in Exec(run).waiters && w in Exec(run + [l]).waiters
    ensures AtRest(run + [l], |run|, w)
  {
    var next := run + [l];
    LastStep(run, l);
    FreshWaiter(Exec(run), l, w);
    if Exec(next).waiters[w].stopCh.None? {
      StoppedNow(next, Exec(next).waiters[w].obj);
    }
  }

  lemma AtRestStep(run: seq<Label>, l: Label, i: nat, w: Caller)
    requires i < |run| && AtRest(run, i, w)
    ensures AtRest(run + [l], i, w)
  {
    LastStep(run, l);
    WaiterPersists(Exec(run), l, w);
    assert (run + [l])[..i + 1] == run[..i + 1];
  }

  // A snapshot without a channel saw a container at rest.
  lemma {:induction false} SinceSnapshot(run: seq<Label>, i: nat, w: Caller)
    requires Exec(run).issued < TWO64 && SnapshotStep(run, i, w)
    ensures AtRest(run, i, w)
  {
    var before, l := LastStepOf(run);
    if i == |before| {
      assert run[..i] == before && run[..i + 1] == run;
      AtRestAtSnapshot(before, l, w);
    } else {
      SnapshotBefore(before, l, i, w);
      SinceSnapshot(before, i, w);
      AtRestStep(before, l, i, w);
    }
  }

  // Only a stop closes a channel, and it is the channel of the container it stops.
  lemma ClosingOp(s: Store, op: Op, t: nat)
    requires StoreInv(s) && t < |s.chans| && !s.chans[t].closed && ApplyOp(s, op).0.chans[t].closed
    ensures var o := s.chans[t].owner;
            && op == Stop(s.objs[o].id)
            && s.objs[o].phase == Running && ApplyOp(s, op).0.objs[o].phase == Exited
  {
    assert op.Stop?;
    OnlyOwner(s, op.id);
  }

  lemma OthersKeepChans(y: System, l: Label)
    requires SystemRefs(y) && !l.Locked?
    ensures Apply(y, l).store.chans == y.store.chans
  {
  }

  // The one step that closes a waiter's channel also leaves the waiter's own container not running.
  lemma ClosingStops(y: System, l: Label, w: Waiter)
    requires Inv(y) && WaiterInv(y.store, w) && w.stopCh.Some?
    requires !Signalled(y.store, w) && Signalled(Apply(y, l).store, w)
    ensures StopCloses(y.store, l, Apply(y, l).store, w.obj, w.stopCh.value)
  {
    if l.Locked? {
      ClosingOp(y.store, l.op, w.stopCh.value);
    } else {
      OthersKeepChans(y, l);
    }
  }

  lemma StopStepExtends(run: seq<Label>, l: Label, k: nat, o: nat, t: nat)
    ensures StopStepClosed(run, k, o, t) <==> k < |run| && StopStepClosed(run + [l], k, o, t)
  {
    if k < |run| {
      assert (run + [l])[..k] == run[..k] && (run + [l])[..k + 1] == run[..k + 1];
    }
  }

  lemma StopStepLast(run: seq<Label>, l: Label, o: nat, t: nat)
    ensures StopStepClosed(run + [l], |run|, o, t) <==> StopCloses(Exec(run).store, l, Exec(run + [l]).store, o, t)
  {
    assert (run + [l])[..|run|] == run && (run + [l])[..|run| + 1] == run + [l];
  }

  lemma ClosedExtends(run: seq<Label>, l: Label, i: nat, j: nat, me: Waiter)
    requires j <= |run|
    ensures ClosedBetween(run, i, j, me) <==> ClosedBetween(run + [l], i, j, me)
  {
    if me.stopCh.Some? {
      forall k: nat | k < j
        ensures StopStepClosed(run, k, me.obj, me.stopCh.value) <==>
                StopStepClosed(run + [l], k, me.obj, me.stopCh.value)
      {
        StopStepExtends(run, l, k, me.obj, me.stopCh.value);
      }
    }
  }

  lemma SignalStep(run: seq<Label>, l: Label, i: nat, me: Waiter)
    requires Inv(Exec(run)) && WaiterInv(Exec(run).store, me) && i < |run|
    requires Signalled(Exec(run).store, me) ==> ClosedBetween(run, i, |run|, me)
    requires Signalled(Apply(Exec(run), l).store, me)
    ensures ClosedBetween(run + [l], i, |run| + 1, me)
  {
    if Signalled(Exec(run).store, me) {
      ClosedExtends(run, l, i, |run|, me);
    } else {
      ClosingStops(Exec(run), l, me);
      LastStep(run, l);
      StopStepLast(run, l, me.obj, me.stopCh.value);
    }
  }

  // If the channel a waiter holds is closed, then a stop of its own container closed it after the snapshot:
  // the stop of the very run the waiter saw.
  lemma {:induction false} SignalComesFromOwnStop(run: seq<Label>, i: nat, w: Caller)
    requires Exec(run).issued < TWO64 && SnapshotStep(run, i, w)
    requires w in Exec(run).waiters && Signalled(Exec(run).store, Exec(run).waiters[w])
    ensures ClosedBetween(run, i, |run|, Exec(run).waiters[w])
  {
    var before, l := LastStepOf(run);
    if i == |before| {
      assert run[..i + 1] == run;
      FreshWaiter(Exec(before), l, w);
      assert false;
    }
    SnapshotBefore(before, l, i, w);
    SinceSnapshot(before, i, w);
    WaiterPersists(Exec(before), l, w);
    var me := Exec(before).waiters[w];
    if Signalled(Exec(before).store, me) {
      SignalComesFromOwnStop(before, i, w);
    }
    SignalStep(before, l, i, me);
  }

  // A move that answers is one of the three, and an answer stays.
  lemma MoveResolves(y: System, w: Caller, move: Move)
    requires Inv(y) && w in y.waiters
    ensures var me, r := y.waiters[w], MoveWaiter(y.store, y.waiters[w], CtxOf(y, w), move);
            && (Answered(me) ==> Answered(r) && r.received + r.buffered == me.received + me.buffered)
            && (!Answered(me) && Answered(r) ==> exists a :: Resolves(y, Waiting(w, move), w, a))
  {
    var me, r := y.waiters[w], MoveWaiter(y.store, y.waiters[w], CtxOf(y, w), move);
    if Answered(me) {
      ReceivingMoves(me);
    } else if Answered(r) {
      var a := if move == GiveUp then WaitResult(0, ErrorText(CtxOf(y, w).value)) else WaitResult(0, "");
      assert Resolves(y, Waiting(w, move), w, a);
    }
  }

  // Each of the three answers, with its own answer.
  lemma ResolvingMove(y: System, w: Caller, move: Move, a: WaitResult)
    requires Inv(y) && Resolves(y, Waiting(w, move), w, a)
    ensures var me, r := y.waiters[w], MoveWaiter(y.store, y.waiters[w], CtxOf(y, w), move);
            !Answered(me) && Answered(r) && r.received + r.buffered == [a]
  {
    SendKeepsWaiter(y.store, y.waiters[w], a);
  }

  // Whatever the label is, a waiter becomes resolved exactly by a step that resolves it, with that step's answer.
  lemma StepResolves(y: System, l: Label, w: Caller)
    requires Inv(y) && w in y.waiters
    ensures w in Apply(y, l).waiters
    ensures var me, r := y.waiters[w], Apply(y, l).waiters[w];
            && (Answered(me) ==> Answered(r) && r.received + r.buffered == me.received + me.buffered)
            && (!Answered(me) && Answered(r) ==> exists a :: Resolves(y, l, w, a))
  {
    WaiterPersists(y, l, w);
    if l.Waiting? && l.caller == w {
      MoveResolves(y, w, l.move);
    }
  }

  lemma ResolvingStep(y: System, l: Label, w: Caller, a: WaitResult)
    requires Inv(y) && w in y.waiters && Resolves(y, l, w, a)
    ensures w in Apply(y, l).waiters
    ensures var me, r := y.waiters[w], Apply(y, l).waiters[w];
            !Answered(me) && Answered(r) && r.received + r.buffered == [a]
  {
    WaiterPersists(y, l, w);
    ResolvingMove(y, w, l.move, a);
  }

  lemma ResolvedByExtends(run: seq<Label>, l: Label, i: nat, j: nat, w: Caller, a: WaitResult)
    requires j < |run|
    ensures ResolvedBy(run + [l], i, j, w, a) <==> ResolvedBy(run, i, j, w, a)
  {
    assert (run + [l])[..j] == run[..j];
    if WakeResolves(Exec(run[..j]), run[j], w, a) {
      ClosedExtends(run, l, i, j, Exec(run[..j]).waiters[w]);
    }
  }

  lemma ResolvedByLast(run: seq<Label>, l: Label, i: nat, w: Caller, a: WaitResult)
    requires Exec(run).issued < TWO64 && SnapshotStep(run, i, w)
    ensures ResolvedBy(run + [l], i, |run|, w, a) <==> Resolves(Exec(run), l, w, a)
  {
    assert (run + [l])[..|run|] == run;
    if WakeResolves(Exec(run), l, w, a) {
      SignalComesFromOwnStop(run, i, w);
      ClosedExtends(run, l, i, |run|, Exec(run).waiters[w]);
    }
  }

  // Waiter w, snapshotted at step i, is resolved exactly when some later step resolved it, with that step's answer.
  ghost predicate Explained(run: seq<Label>, i: nat, w: Caller) {
    && w in Exec(run).waiters
    && var me := Exec(run).waiters[w];
    && (Answered(me) <==> exists j, a :: ResolvedBy(run, i, j, w, a))
    && forall j, a | ResolvedBy(run, i, j, w, a) :: me.received + me.buffered == [a]
  }

  lemma ResolvedLater(run: seq<Label>, l: Label, i: nat, w: Caller)
    requires Exec(run).issued < TWO64 && SnapshotStep(run, i, w)
    ensures (exists j, a :: ResolvedBy(run + [l], i, j, w, a)) <==>
            (exists j, a :: ResolvedBy(run, i, j, w, a)) || (exists a :: Resolves(Exec(run), l, w, a))
    ensures forall j, a | ResolvedBy(run + [l], i, j, w, a) ::
              ResolvedBy(run, i, j, w, a) || Resolves(Exec(run), l, w, a)
  {
    forall j: nat, a | ResolvedBy(run + [l], i, j, w, a)
      ensures ResolvedBy(run, i, j, w, a) || Resolves(Exec(run), l, w, a)
    {
      if j < |run| {
        ResolvedByExtends(run, l, i, j, w, a);
      } else {
        ResolvedByLast(run, l, i, w, a);
      }
    }
    if j: nat, a :| ResolvedBy(run, i, j, w, a) {
      ResolvedByExtends(run, l, i, j, w, a);
    }
    if a :| Resolves(Exec(run), l, w, a) {
      ResolvedByLast(run, l, i, w, a);
    }
  }

  lemma ExplainedStep(run: seq<Label>, l: Label, i: nat, w: Caller)
    requires Exec(run).issued < TWO64 && Inv(Exec(run)) && SnapshotStep(run, i, w) && Explained(run, i, w)
    ensures Explained(run + [l], i, w)
  {
    LastStep(run, l);
    StepResolves(Exec(run), l, w);
    ResolvedLater(run, l, i, w);
    forall a | Resolves(Exec(run), l, w, a) {
      ResolvingStep(Exec(run), l, w, a);
    }
  }

  lemma ExplainedAtSnapshot(run: seq<Label>, l: Label, w: Caller)
    requires Inv(Exec(run)) && w !in Exec(run).waiters && w in Exec(run + [l]).waiters
    ensures Explained(run + [l], |run|, w)
  {
    LastStep(run, l);
    FreshWaiter(Exec(run), l, w);
  }

  // How a wait ends. From its snapshot on, a waiter is resolved exactly when one later step resolved it: a state read
  // that found the container not running or no channel at the snapshot, the stop of the very run it snapshotted, or
  // its own context. Its one answer is that step's answer.
  lemma {:induction false} WaiterResolution(run: seq<Label>, i: nat, w: Caller)
    requires Exec(run).issued < TWO64 && SnapshotStep(run, i, w)
    ensures w in Exec(run).waiters
    ensures var me := Exec(run).waiters[w];
            && (me.stage == Sent || me.stage == Closed <==> exists j, a :: ResolvedBy(run, i, j, w, a))
            && forall j, a | ResolvedBy(run, i, j, w, a) :: me.received + me.buffered == [a]
  {
    var before, l := LastStepOf(run);
    if i == |before| {
      assert run[..i] == before && run[..i + 1] == run;
      ExplainedAtSnapshot(before, l, w);
    } else {
      SnapshotBefore(before, l, i, w);
      WaiterResolution(before, i, w);
      ExplainedStep(before, l, i, w);
    }
  }

  // Every waiter there is took its snapshot at some step.
  lemma {:induction false} EveryWaiterSnapped(run: seq<Label>, w: Caller) returns (i: nat)
    requires w in Exec(run).waiters
    ensures SnapshotStep(run, i, w)
  {
    var n := |run| - 1;
    assert run[..n] + [run[n]] == run;
    if w in Exec(run[..n]).waiters {
      i := EveryWaiterSnapped(run[..n], w);
      SnapshotBefore(run[..n], run[n], i, w);
    } else {
      i := n;
      assert run[..n + 1] == run;
    }
  }

  // Step i is the snapshot of waiter me for the live container id: it points at that container's record and, if the
  // map has a channel for id, holds that channel.
  ghost predicate SnapshotTakes(y: System, l: Label, w: Caller, me: Waiter) {
    && l.Waiting? && l.caller == w && l.move.Snapshot? && l.move.id in y.store.containers
    && me.obj == y.store.containers[l.move.id]
    && (me.stopCh.Some? <==> l.move.id in y.store.waitChs)
    && (me.stopCh.Some? ==> l.move.id in y.store.waitChs && me.stopCh.value == y.store.waitChs[l.move.id])
  }

  lemma NewWaiterTakes(y: System, l: Label, w: Caller)
    requires SystemRefs(y) && w !in y.waiters && w in Apply(y, l).waiters
    ensures SnapshotTakes(y, l, w, Apply(y, l).waiters[w])
  {
    OnlySnapshotAdds(y, l, w);
  }

  // What a waiter points at is what its snapshot asked for, whatever happened since.
  lemma {:induction false} SnapshotPointers(run: seq<Label>, i: nat, w: Caller)
    requires SnapshotStep(run, i, w)
    ensures w in Exec(run).waiters && SnapshotTakes(Exec(run[..i]), run[i], w, Exec(run).waiters[w])
  {
    var before, l := run[..|run| - 1], run[|run| - 1];
    assert run == before + [l];
    LastStep(before, l);
    if i == |before| {
      assert run[..i] == before && run[..i + 1] == run;
      NewWaiterTakes(Exec(before), l, w);
    } else {
      SnapshotBefore(before, l, i, w);
      SnapshotPointers(before, i, w);
      assert run[..i] == before[..i] && run[i] == before[i];
      WaiterPersists(Exec(before), l, w);
    }
  }

  // "Exit status 0, no error" has been put into w's result channel.
  ghost predicate ReportsExit(w: Waiter) {
    WaitResult(0, "") in w.received + w.buffered
  }

  // At some moment after step i and not after step j, object o was not running.
  ghost predicate StoppedBetween(run: seq<Label>, i: nat, j: nat, o: nat) {
    exists m :: i < m <= j && StoppedAt(run, m, o)
  }

  // The pointers of a waiter never change.
  lemma {:induction false} PointersSince(run: seq<Label>, j: nat, w: Caller)
    requires j <= |run| && w in Exec(run[..j]).waiters
    ensures w in Exec(run).waiters
    ensures Exec(run).waiters[w].obj == Exec(run[..j]).waiters[w].obj
    ensures Exec(run).waiters[w].stopCh == Exec(run[..j]).waiters[w].stopCh
  {
    if j == |run| {
      assert run[..j] == run;
    } else {
      var before, l := run[..|run| - 1], run[|run| - 1];
      assert before[..j] == run[..j] && run == before + [l];
      PointersSince(before, j, w);
      LastStep(before, l);
      WaiterPersists(Exec(before), l, w);
    }
  }

  lemma ExitSeen(run: seq<Label>, i: nat, j: nat, w: Caller)
    requires Exec(run).issued < TWO64 && SnapshotStep(run, i, w) && ResolvedBy(run, i, j, w, WaitResult(0, ""))
    ensures w in Exec(run).waiters && StoppedBetween(run, i, j, Exec(run).waiters[w].obj)
  {
    SinceSnapshot(run, i, w);
    PointersSince(run, j, w);
    var me := Exec(run[..j]).waiters[w];
    if CheckResolves(Exec(run[..j]), run[j], w, WaitResult(0, "")) {
      assert StoppedAt(run, if me.stopCh.None? then i + 1 else j, me.obj);
    } else {
      var k :| i < k < j && StopStepClosed(run, k, me.obj, me.stopCh.value);
      assert StoppedAt(run, k + 1, me.obj);
    }
  }

  // Waiter truthfulness: if a WaitContainer call answers "exit status 0, no error", then at some moment between its
  // snapshot and the step that resolved it its container was not running, whatever was interleaved: stops, restarts,
  // removals, and state changes between the snapshot and the unlocked state read.
  lemma WaiterTruthful(run: seq<Label>, i: nat, w: Caller)
    requires Exec(run).issued < TWO64 && SnapshotStep(run, i, w)
    ensures w in Exec(run).waiters
    ensures ReportsExit(Exec(run).waiters[w]) ==>
              exists j :: ResolvedBy(run, i, j, w, WaitResult(0, ""))
                  && StoppedBetween(run, i, j, Exec(run).waiters[w].obj)
  {
    WaiterResolution(run, i, w);
    ReachableInv(run);
    var me := Exec(run).waiters[w];
    if ReportsExit(me) {
      assert |me.buffered + me.received| == |me.received + me.buffered| > 0;
      var j, a :| ResolvedBy(run, i, j, w, a);
      assert a == WaitResult(0, "");
      ExitSeen(run, i, j, w);
    }
  }

  // No wakeup is lost: a blocked waiter cannot proceed by its channel exactly as long as its container is still
  // in the run the waiter snapshotted. In particular a stop followed at once by a restart still wakes it.
  lemma NoLostWakeup(run: seq<Label>, w: Caller)
    requires Exec(run).issued < TWO64
    requires w in Exec(run).waiters && Exec(run).waiters[w].stage == Blocked
    ensures var s := Exec(run).store; var me := Exec(run).waiters[w]; var id := s.objs[me.obj].id;
            me.stopCh.Some? &&
            (!Signalled(s, me) <==>
            s.objs[me.obj].phase == Running && id in s.waitChs && s.waitChs[id] == me.stopCh.value)
  {
    ReachableInv(run);
  }

  // Exactly one result, then close: before the result nothing was sent, afterwards one result exists in all,
  // and the channel is closed only then.
  lemma OneResultThenClose(run: seq<Label>, w: Caller)
    requires Exec(run).issued < TWO64 && w in Exec(run).waiters
    ensures var me := Exec(run).waiters[w];
            |me.received + me.buffered| == if me.stage == Sent || me.stage == Closed then 1 else 0
  {
    ReachableInv(run);
  }

  predicate AnswerOf(ctx: Option<CtxError>, r: WaitResult) {
    || r == WaitResult(0, "")
    || (ctx == Some(Canceled) && r == WaitResult(0, "context canceled"))
    || (ctx == Some(DeadlineExceeded) && r == WaitResult(0, "context deadline exceeded"))
  }

  // Any other answer is the error of the waiter's own cancelled context.
  ghost predicate AnswersInv(y: System) {
    forall w, r | w in y.waiters && r in y.waiters[w].received + y.waiters[w].buffered :: AnswerOf(CtxOf(y, w), r)
  }

  // A move adds no answer other than the two.
  lemma MoveAnswers(s: Store, me: Waiter, ctx: Option<CtxError>, move: Move, a: WaitResult)
    requires WaiterRefs(s, me) && forall r | r in me.received + me.buffered :: AnswerOf(ctx, r)
    requires var r := MoveWaiter(s, me, ctx, move); a in r.received + r.buffered
    ensures AnswerOf(ctx, a)
  {
    ReceivingMoves(me);
  }

  lemma AnswersStep(y: System, caller: Caller, move: Move)
    requires SystemRefs(y) && AnswersInv(y)
    ensures AnswersInv(ApplyMove(y, caller, move))
  {
    var r := ApplyMove(y, caller, move);
    forall w, a | w in r.waiters && a in r.waiters[w].received + r.waiters[w].buffered
      ensures AnswerOf(CtxOf(r, w), a)
    {
      MoveIsLocal(y, caller, move, w);
      if w in y.waiters {
        if w == caller {
          MoveAnswers(y.store, y.waiters[w], CtxOf(y, w), move, a);
        }
        assert AnswerOf(CtxOf(y, w), a);
      }
    }
  }

  lemma {:induction false} OnlyExitOrCancellation(run: seq<Label>)
    ensures AnswersInv(Exec(run))
  {
    if run != [] {
      var before, l := run[..|run| - 1], run[|run| - 1];
      OnlyExitOrCancellation(before);
      if l.Waiting? {
        AnswersStep(Exec(before), l.caller, l.move);
      }
    }
  }
}
