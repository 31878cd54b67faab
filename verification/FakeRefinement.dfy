/** The engine seen from outside: the life of each container and a plain relation between networks and
    containers. The store with its two-level member index refines this simpler machine, step by step and over
    whole runs, error codes included. */
module FakeRefinement {
  import opened Outcomes
  import opened FakeStore
  import opened FakeSystem
  import opened FakeInvariant
  import opened FakeHistory
  import Ports

  // phase: the live containers. member: which container is on which network. nets: the created networks
  // with their name and driver.
  datatype View = View(phase: map<ContainerID, Phase>, member: set<(NetworkID, ContainerID)>,
    nets: map<NetworkID, Network>)

  ghost function PhaseOf(s: Store): map<ContainerID, Phase>
    requires Refs(s)
  {
    map id | id in s.containers :: s.objs[s.containers[id]].phase
  }

  ghost function MemberOf(m: map<NetworkID, set<ContainerID>>): set<(NetworkID, ContainerID)> {
    set net, id | net in m && id in m[net] :: (net, id)
  }

  ghost function ViewOf(s: Store): View
    requires Refs(s)
  {
    View(PhaseOf(s), MemberOf(s.netMembers), s.networks)
  }

  ghost function Without(member: set<(NetworkID, ContainerID)>, id: ContainerID): set<(NetworkID, ContainerID)> {
    set m | m in member && m.1 != id
  }

  // The locked operations on the outside view.
  ghost function SpecOp(v: View, op: Op): (View, Option<Error>) {
    match op
    case Start(id) =>
      if id !in v.phase then (v, Some(NotFound))
      else if v.phase[id] == Running then (v, Some(Conflict))
      else (v.(phase := v.phase[id := Running]), None)
    case Stop(id) =>
      if id !in v.phase then (v, Some(NotFound))
      else if v.phase[id] != Running then (v, Some(Conflict))
      else (v.(phase := v.phase[id := Exited]), None)
    case Remove(id, force) =>
      if id !in v.phase then (v, Some(NotFound))
      else if v.phase[id] == Running && !force then (v, Some(Conflict))
      else (v.(phase := v.phase - {id}, member := Without(v.member, id)), None)
    case CreateNetwork(name, driver) => (v.(nets := v.nets["fake-net-" + name := Network(name, driver)]), None)
    case RemoveNetwork(net) =>
      if net !in v.nets then (v, Some(NotFound))
      else (v.(nets := v.nets - {net}, member := set m | m in v.member && m.0 != net), None)
    case Connect(net, id) =>
      if id !in v.phase then (v, Some(NotFound)) else (v.(member := v.member + {(net, id)}), None)
    case Disconnect(net, id) =>
      if id !in v.phase then (v, Some(NotFound)) else (v.(member := v.member - {(net, id)}), None)
  }

  // A container is born under an id, on the networks its spec names.
  ghost function SpecBorn(v: View, id: ContainerID, nets: seq<NetworkID>): View {
    v.(phase := v.phase[id := Created], member := v.member + (set net | net in nets :: (net, id)))
  }

  lemma MemberJoin(m: map<NetworkID, set<ContainerID>>, net: NetworkID, id: ContainerID)
    ensures MemberOf(Join(m, net, id)) == MemberOf(m) + {(net, id)}
  {
    var r := Join(m, net, id);
    forall n, x ensures (n, x) in MemberOf(r) <==> (n, x) in MemberOf(m) || (n, x) == (net, id) {
    }
  }

  lemma MemberLeave(m: map<NetworkID, set<ContainerID>>, net: NetworkID, id: ContainerID)
    ensures MemberOf(Leave(m, net, id)) == MemberOf(m) - {(net, id)}
  {
    var r := Leave(m, net, id);
    forall n, x ensures (n, x) in MemberOf(r) <==> (n, x) in MemberOf(m) && (n, x) != (net, id) {
      if n in m && n == net {
        assert x in m[net] && x != id <==> x in m[net] - {id};
      }
    }
  }

  lemma MemberLeaveAll(m: map<NetworkID, set<ContainerID>>, id: ContainerID)
    ensures MemberOf(LeaveAll(m, id)) == Without(MemberOf(m), id)
  {
    var r := LeaveAll(m, id);
    forall n, x ensures (n, x) in MemberOf(r) <==> (n, x) in MemberOf(m) && x != id {
      if n in m && x in m[n] && x != id {
        assert x in m[n] - {id};
      }
    }
  }

  lemma MemberDrop(m: map<NetworkID, set<ContainerID>>, net: NetworkID)
    ensures MemberOf(m - {net}) == set p | p in MemberOf(m) && p.0 != net
  {
    forall n, x ensures (n, x) in MemberOf(m - {net}) <==> (n, x) in MemberOf(m) && n != net {
    }
  }

  lemma {:induction false} MemberJoinAll(m: map<NetworkID, set<ContainerID>>, nets: seq<NetworkID>, id: ContainerID)
    ensures MemberOf(JoinAll(m, nets, id)) == MemberOf(m) + (set net | net in nets :: (net, id))
  {
    if nets != [] {
      var n := |nets| - 1;
      assert nets == nets[..n] + [nets[n]];
      MemberJoinAll(m, nets[..n], id);
      MemberJoin(JoinAll(m, nets[..n], id), nets[n], id);
      assert (set net | net in nets :: (net, id)) == (set net | net in nets[..n] :: (net, id)) + {(nets[n], id)};
    }
  }

  lemma RemovedPhase(s: Store, id: ContainerID)
    requires Refs(s)
    ensures PhaseOf(s.(containers := s.containers - {id}, netMembers := LeaveAll(s.netMembers, id))) ==
            PhaseOf(s) - {id}
  {
  }

  lemma RemoveRefines(s: Store, id: ContainerID, force: bool)
    requires StoreInv(s)
    ensures ViewOf(RemoveStep(s, id, force).0) == SpecOp(ViewOf(s), Remove(id, force)).0
    ensures RemoveStep(s, id, force).1 == SpecOp(ViewOf(s), Remove(id, force)).1
  {
    if RemoveStep(s, id, force).1 == None {
      MemberLeaveAll(s.netMembers, id);
      RemovedPhase(s, id);
    }
  }

  lemma SamePhase(s: Store, r: Store)
    requires Refs(s) && Refs(r) && r.objs == s.objs && r.containers == s.containers
    ensures PhaseOf(r) == PhaseOf(s)
  {
  }

  lemma RemoveNetworkRefines(s: Store, net: NetworkID)
    requires StoreInv(s)
    ensures ViewOf(RemoveNetworkStep(s, net).0) == SpecOp(ViewOf(s), RemoveNetwork(net)).0
    ensures RemoveNetworkStep(s, net).1 == SpecOp(ViewOf(s), RemoveNetwork(net)).1
  {
    MemberDrop(s.netMembers, net);
    SamePhase(s, RemoveNetworkStep(s, net).0);
  }

  lemma ConnectRefines(s: Store, net: NetworkID, id: ContainerID)
    requires StoreInv(s)
    ensures ViewOf(ConnectStep(s, net, id).0) == SpecOp(ViewOf(s), Connect(net, id)).0
    ensures ConnectStep(s, net, id).1 == SpecOp(ViewOf(s), Connect(net, id)).1
  {
    MemberJoin(s.netMembers, net, id);
    SamePhase(s, ConnectStep(s, net, id).0);
  }

  lemma DisconnectRefines(s: Store, net: NetworkID, id: ContainerID)
    requires StoreInv(s)
    ensures ViewOf(DisconnectStep(s, net, id).0) == SpecOp(ViewOf(s), Disconnect(net, id)).0
    ensures DisconnectStep(s, net, id).1 == SpecOp(ViewOf(s), Disconnect(net, id)).1
  {
    MemberLeave(s.netMembers, net, id);
    SamePhase(s, DisconnectStep(s, net, id).0);
  }

  // A store that gives one live container another phase.
  lemma PhaseSet(s: Store, r: Store, id: ContainerID, phase: Phase)
    requires Refs(s) && Refs(r) && IdsInv(s) && id in s.containers && r.containers == s.containers
    requires |r.objs| == |s.objs| && r.objs[s.containers[id]].phase == phase
    requires forall o | 0 <= o < |s.objs| && o != s.containers[id] :: r.objs[o] == s.objs[o]
    ensures PhaseOf(r) == PhaseOf(s)[id := phase]
  {
    forall x | x in s.containers && x != id ensures s.containers[x] != s.containers[id] {
      OnlyOwner(s, x);
    }
  }

  lemma StartRefines(s: Store, id: ContainerID)
    requires StoreInv(s)
    ensures ViewOf(StartStep(s, id).0) == SpecOp(ViewOf(s), Start(id)).0
    ensures StartStep(s, id).1 == SpecOp(ViewOf(s), Start(id)).1
  {
    if id in s.containers && s.objs[s.containers[id]].phase != Running {
      PhaseSet(s, StartStep(s, id).0, id, Running);
    }
  }

  lemma StopRefines(s: Store, id: ContainerID)
    requires StoreInv(s)
    ensures ViewOf(StopStep(s, id).0) == SpecOp(ViewOf(s), Stop(id)).0
    ensures StopStep(s, id).1 == SpecOp(ViewOf(s), Stop(id)).1
  {
    if id in s.containers && s.objs[s.containers[id]].phase == Running {
      PhaseSet(s, StopStep(s, id).0, id, Exited);
    }
  }

  lemma InsertedPhase(s: Store, r: Store, id: ContainerID)
    requires Refs(s) && Refs(r) && r.containers == s.containers[id := |s.objs|]
    requires |r.objs| == |s.objs| + 1 && r.objs[..|s.objs|] == s.objs && r.objs[|s.objs|].phase == Created
    ensures PhaseOf(r) == PhaseOf(s)[id := Created]
  {
    assert forall o | 0 <= o < |s.objs| :: r.objs[..|s.objs|][o] == r.objs[o];
  }

  lemma InsertRefines(s: Store, id: ContainerID, spec: Spec, ports: seq<Ports.Port>)
    requires StoreInv(s) && id !in s.containers
    ensures ViewOf(InsertStep(s, id, spec, ports)) == SpecBorn(ViewOf(s), id, spec.networks)
  {
    MemberJoinAll(s.netMembers, spec.networks, id);
    InsertedPhase(s, InsertStep(s, id, spec, ports), id);
  }

  // Every locked operation does to the view what the simple machine does, and answers the same.
  lemma OpRefines(s: Store, op: Op)
    requires StoreInv(s)
    ensures ViewOf(ApplyOp(s, op).0) == SpecOp(ViewOf(s), op).0
    ensures ApplyOp(s, op).1 == SpecOp(ViewOf(s), op).1
  {
    match op
    case Start(id) => StartRefines(s, id);
    case Stop(id) => StopRefines(s, id);
    case Remove(id, force) => RemoveRefines(s, id, force);
    case CreateNetwork(name, driver) =>
    case RemoveNetwork(net) => RemoveNetworkRefines(s, net);
    case Connect(net, id) => ConnectRefines(s, net, id);
    case Disconnect(net, id) => DisconnectRefines(s, net, id);
  }

  // What a label means to the outside.
  datatype Event = Operation(op: Op) | Born(id: ContainerID, nets: seq<NetworkID>) | Silent

  ghost function EventOf(y: System, l: Label): Event {
    if l.Locked? then Operation(l.op)
    else if l.Insert? && CanInsert(y, l.caller, l.ports)
        then Born(y.creators[l.caller].id, y.creators[l.caller].spec.networks)
    else Silent
  }

  ghost function SpecStep(v: View, e: Event): View {
    match e
    case Operation(op) => SpecOp(v, op).0
    case Born(id, nets) => SpecBorn(v, id, nets)
    case Silent => v
  }

  ghost function SpecRun(events: seq<Event>): View {
    if events == [] then View(map[], {}, map[])
    else SpecStep(SpecRun(events[..|events| - 1]), events[|events| - 1])
  }

  ghost function EventsOf(run: seq<Label>): seq<Event> {
    if run == [] then []
    else EventsOf(run[..|run| - 1]) + [EventOf(Exec(run[..|run| - 1]), run[|run| - 1])]
  }

  lemma OthersKeepView(y: System, l: Label)
    requires SystemRefs(y) && !l.Locked? && !l.Insert?
    ensures ViewOf(Apply(y, l).store) == ViewOf(y.store)
  {
    match l
    case Reserve(c, spec) =>
    case ResolvePort(c) => ResolvePortKeepsNames(y, c);
    case Waiting(c, move) =>
  }

  lemma StepRefines(y: System, l: Label)
    requires Inv(y)
    ensures ViewOf(Apply(y, l).store) == SpecStep(ViewOf(y.store), EventOf(y, l))
  {
    match l
    case Locked(op) => OpRefines(y.store, op);
    case Insert(c, ports) =>
      if CanInsert(y, c, ports) {
        var k := y.creators[c];
        assert k.id !in y.store.containers by {
          if k.id in y.store.containers { OnlyOwner(y.store, k.id); }
        }
        InsertRefines(y.store, k.id, k.spec, ports);
      }
    case _ => OthersKeepView(y, l);
  }

  // Over every run, the store represents exactly the phases and the membership relation of the simple machine.
  lemma {:induction false} RunRefines(run: seq<Label>)
    requires Exec(run).issued < TWO64
    ensures ViewOf(Exec(run).store) == SpecRun(EventsOf(run))
  {
    if run == [] {
      assert MemberOf(EMPTY.netMembers) == {};
    } else {
      var before, l := run[..|run| - 1], run[|run| - 1];
      assert run == before + [l];
      IssuedOnlyGrows(before, l);
      LastStep(before, l);
      ReachableInv(before);
      RunRefines(before);
      StepRefines(Exec(before), l);
      var events := EventsOf(run);
      assert events[..|events| - 1] == EventsOf(before);
    }
  }

  // In every reachable state each member is a live container and no network keeps an empty member set.
  lemma MembersAreLive(run: seq<Label>, net: NetworkID, id: ContainerID)
    requires Exec(run).issued < TWO64
    ensures (net, id) in SpecRun(EventsOf(run)).member ==> id in SpecRun(EventsOf(run)).phase
    ensures net in Exec(run).store.netMembers <==> exists c :: (net, c) in SpecRun(EventsOf(run)).member
  {
    RunRefines(run);
    ReachableInv(run);
    var m := Exec(run).store.netMembers;
    if net in m {
      var c :| c in m[net];
      assert (net, c) in MemberOf(m);
    }
  }
}
