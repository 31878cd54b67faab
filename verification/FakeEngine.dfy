/** The in-memory engine as the object it is: maps and counters updated in place, container records and stop
    channels reached through pointers. Each method is the body of one locked section of currustest/fake.go and
    is proved to have exactly the effect FakeStore gives that section. */
module FakeEngine {
  import opened Outcomes
  import opened Decimal
  import opened Ports
  import opened FakeStore

  class AtomicUint64 {
    var value: uint64

    constructor (v: uint64)
      ensures value == v
    {
      value := v;
    }

    method Add() returns (r: uint64)
      modifies this
      ensures r == value == Add1(old(value))
    {
      value := Add1(value);
      r := value;
    }
  }

  class FakeContainer {
    ghost const index: nat
    ghost const id: ContainerID
    const spec: Spec
    const ports: seq<Port>
    var state: Phase
    var logs: string

    constructor (ghost index: nat, ghost id: ContainerID, spec: Spec, ports: seq<Port>)
      ensures this.index == index && this.id == id && this.spec == spec && this.ports == ports
              && state == Created && logs == ""
    {
      this.index := index;
      this.id := id;
      this.spec := spec;
      this.ports := ports;
      state := Created;
      logs := "";
    }
  }

  // chan struct{}, used only as a signal; closing a closed channel panics.
  class StopChan {
    ghost const index: nat
    ghost const owner: nat
    var closed: bool

    constructor (ghost index: nat, ghost owner: nat)
      ensures this.index == index && this.owner == owner && !closed
    {
      this.index := index;
      this.owner := owner;
      closed := false;
    }

    method Close()
      requires !closed
      modifies this
      ensures closed
    {
      closed := true;
    }
  }

  // One iteration of the loop: c is the counter value before the loop, before the entries already resolved.
  method ResolveEntry(p: Port, counter: AtomicUint64, ghost c: uint64, ghost before: seq<Port>) returns (entry: Port)
    requires counter.value == Advance(c, ZeroHosts(before))
    modifies counter
    ensures counter.value == Advance(c, ZeroHosts(before + [p]))
    ensures ResolvedAfter(c, before + [p]) == ResolvedAfter(c, before) + [entry]
  {
    var proto := p.protocol;
    if proto == "" {
      proto := "tcp";
    }
    ZeroHostsSnoc(before, p);
    var host := p.host;
    if host == 0 {
      AdvanceStep(c, ZeroHosts(before));
      var n := counter.Add();
      host := Low16(n);
    }
    ResolvedAfterSnoc(c, before, p);
    return Port(p.container, host, p.hostIP, proto);
  }

  // The loop of resolveEphemeralPorts.
  method ResolveEntries(specPorts: seq<Port>, counter: AtomicUint64) returns (out: seq<Port>)
    modifies counter
    ensures out == ResolvedAfter(old(counter.value), specPorts)
    ensures counter.value == Advance(old(counter.value), ZeroHosts(specPorts))
  {
    out := [];
    ghost var c := counter.value;
    for i := 0 to |specPorts|
      invariant counter.value == Advance(c, ZeroHosts(specPorts[..i]))
      invariant out == ResolvedAfter(c, specPorts[..i])
    {
      ghost var before := specPorts[..i];
      assert specPorts[..i + 1] == before + [specPorts[i]];
      var entry := ResolveEntry(specPorts[i], counter, c, before);
      out := out + [entry];
    }
    assert specPorts[..|specPorts|] == specPorts;
  }

  // resolveEphemeralPorts, run without interference: the zero hosts are filled from consecutive increments.
  method ResolveEphemeralPorts(specPorts: seq<Port>, counter: AtomicUint64) returns (out: seq<Port>)
    modifies counter
    ensures SortedPorts(out, ResolvedAfter(old(counter.value), specPorts))
    ensures ResolvedFrom(old(counter.value), specPorts, out)
    ensures counter.value == Advance(old(counter.value), ZeroHosts(specPorts))
  {
    if |specPorts| == 0 {
      SortedIsResolvedFrom(counter.value, specPorts, []);
      return [];
    }
    var resolved := ResolveEntries(specPorts, counter);
    out := SortPorts(resolved);
    SortedIsResolvedFrom(old(counter.value), specPorts, out);
  }

  // The container records hold the values objs, and the map points at the records refs names.
  ghost predicate ValidObjects(objects: seq<FakeContainer>, objs: seq<Obj>,
                               containers: map<ContainerID, FakeContainer>, refs: map<ContainerID, nat>)
    reads objects
  {
    && |objects| == |objs|
    && (forall i | 0 <= i < |objects| ::
          && objects[i].index == i
          && objs[i] == Obj(objects[i].id, objects[i].spec, objects[i].ports, objects[i].state, objects[i].logs))
    && containers.Keys == refs.Keys
    && (forall id | id in refs :: refs[id] < |objects| && containers[id] == objects[refs[id]])
  }

  // A channel in the map is open and signals one container only, so no channel is ever closed twice.
  ghost predicate ValidChannels(channels: seq<StopChan>, chans: seq<Chan>,
                                waitChs: map<ContainerID, StopChan>, refs: map<ContainerID, nat>)
    reads channels
  {
    && |channels| == |chans|
    && (forall i | 0 <= i < |channels| ::
          && channels[i].index == i
          && chans[i] == Chan(channels[i].owner, channels[i].closed))
    && waitChs.Keys == refs.Keys
    && (forall id | id in refs :: refs[id] < |channels| && waitChs[id] == channels[refs[id]] && !chans[refs[id]].closed)
    && (forall a, b | a in refs && b in refs && refs[a] == refs[b] :: a == b)
  }

  datatype Summary = Summary(id: ContainerID, name: string, image: string, state: Phase, labels: map<string, string>)

  datatype Info = Info(
    id: ContainerID,
    name: string,
    image: string,
    labels: map<string, string>,
    running: bool,
    command: seq<string>,
    ports: seq<Port>)

  datatype WaitStart = ResolvesAtOnce | Blocks(ch: StopChan)

  ghost predicate Listed(s: Store, all: bool, c: Summary)
    requires Refs(s)
  {
    && c.id in s.containers
    && var o := s.objs[s.containers[c.id]];
    && (all || o.phase == Running)
    && c == Summary(c.id, o.spec.name, o.spec.image, o.phase, o.spec.labels)
  }

  class Fake {
    var containers: map<ContainerID, FakeContainer>
    var networks: map<NetworkID, Network>
    var netMembers: map<NetworkID, set<ContainerID>>
    var waitChs: map<ContainerID, StopChan>
    const counter: AtomicUint64
    const ephemeralPort: AtomicUint64

    // Every container record and stop channel ever made, in order, the values they hold,
    // and the positions the two pointer maps lead to.
    ghost var objects: seq<FakeContainer>
    ghost var objs: seq<Obj>
    ghost var refs: map<ContainerID, nat>
    ghost var channels: seq<StopChan>
    ghost var chans: seq<Chan>
    ghost var signals: map<ContainerID, nat>

    ghost function Repr(): set<object>
      reads this
    {
      {this, counter, ephemeralPort} + (set o <- objects) + (set c <- channels)
    }

    ghost predicate Valid()
      reads this, objects, channels
    {
      && counter != ephemeralPort
      && ValidObjects(objects, objs, containers, refs)
      && ValidChannels(channels, chans, waitChs, signals)
    }

    ghost function State(): (s: Store)
      requires Valid()
      reads this, counter, ephemeralPort, objects, channels
      ensures Refs(s)
    {
      Store(objs, refs, networks, netMembers, chans, signals, counter.value, ephemeralPort.value)
    }

    constructor ()
      ensures Valid() && fresh(Repr()) && State() == EMPTY
    {
      containers := map[];
      networks := map[];
      netMembers := map[];
      waitChs := map[];
      objects := [];
      channels := [];
      objs := [];
      refs := map[];
      chans := [];
      signals := map[];
      counter := new AtomicUint64(0);
      ephemeralPort := new AtomicUint64(32767);
    }

    // Adds a member, making the member set first when there is none.
    method Attach(net: NetworkID, id: ContainerID)
      modifies `netMembers
      ensures netMembers == Join(old(netMembers), net, id)
    {
      if net !in netMembers {
        netMembers := netMembers[net := {}];
      }
      netMembers := netMembers[net := netMembers[net] + {id}];
    }

    // Takes a member out, and drops the member set when that empties it.
    method Detach(net: NetworkID, id: ContainerID)
      requires net in netMembers
      modifies `netMembers
      ensures netMembers == Leave(old(netMembers), net, id)
    {
      var members := netMembers[net] - {id};
      netMembers := netMembers[net := members];
      if |members| == 0 {
        netMembers := netMembers - {net};
      }
    }

    method AttachAll(nets: seq<NetworkID>, id: ContainerID)
      modifies `netMembers
      ensures netMembers == JoinAll(old(netMembers), nets, id)
    {
      for i := 0 to |nets|
        invariant netMembers == JoinAll(old(netMembers), nets[..i], id)
      {
        assert nets[..i + 1][..|nets[..i + 1]| - 1] == nets[..i];
        Attach(nets[i], id);
      }
      assert nets[..|nets|] == nets;
    }

    method DetachAll(id: ContainerID)
      modifies `netMembers
      ensures netMembers == LeaveAll(old(netMembers), id)
    {
      var todo := netMembers.Keys;
      ghost var before := netMembers;
      while todo != {}
        invariant todo <= netMembers.Keys <= before.Keys
        invariant forall n | n in todo :: netMembers[n] == before[n]
        invariant forall n | n in before && n !in todo ::
                    if before[n] - {id} == {} then n !in netMembers
                    else n in netMembers && netMembers[n] == before[n] - {id}
      {
        var net :| net in todo;
        todo := todo - {net};
        Detach(net, id);
      }
    }

    // Makes a record in state created and points the map at it.
    method AddRecord(id: ContainerID, spec: Spec, resolved: seq<Port>)
      requires ValidObjects(objects, objs, containers, refs)
      modifies `containers, `objects, `objs, `refs
      ensures ValidObjects(objects, objs, containers, refs)
      ensures old(objects) <= objects && fresh(objects[|old(objects)|..])
      ensures objs == old(objs) + [Obj(id, spec, resolved, Created, "")] && refs == old(refs)[id := old(|objs|)]
    {
      var c := new FakeContainer(|objects|, id, spec, resolved);
      containers := containers[id := c];
      refs := refs[id := |objs|];
      objects := objects + [c];
      objs := objs + [Obj(id, spec, resolved, Created, "")];
    }

    // The locked part of CreateContainer, for a container whose id and ports are settled.
    method InsertContainer(id: ContainerID, spec: Spec, resolved: seq<Port>)
      requires Valid()
      modifies `containers, `netMembers, `objects, `objs, `refs
      ensures Valid() && old(objects) <= objects && fresh(objects[|old(objects)|..])
      ensures State() == InsertStep(old(State()), id, spec, resolved)
    {
      AddRecord(id, spec, resolved);
      AttachAll(spec.networks, id);
    }

    method CreateContainer(spec: Spec) returns (r: Result<ContainerID, Error>, ghost ports: seq<Port>)
      requires Valid()
      modifies `containers, `netMembers, `objects, `objs, `refs, counter, ephemeralPort
      ensures Valid() && old(objects) <= objects && fresh(objects[|old(objects)|..])
      ensures r.Err? <==> spec.image == ""
      ensures r.Err? ==> r.error == InvalidSpec && State() == old(State())
      ensures r.Ok? ==>
                && r.value == "fake-" + Format((old(counter.value) + 1) % TWO64)
                && ResolvedFrom(old(ephemeralPort.value), spec.ports, ports)
                && SortedPorts(ports, ResolvedAfter(old(ephemeralPort.value), spec.ports))
                && State() == InsertStep(
                     old(State()).(counter := Add1(old(counter.value)),
                                   ephemeralPort := Advance(old(ephemeralPort.value), ZeroHosts(spec.ports))),
                     r.value, spec, ports)
    {
      ports := [];
      if spec.image == "" {
        return Err(InvalidSpec), [];
      }
      var n := counter.Add();
      var id := IdOf(n);
      var resolved := ResolveEphemeralPorts(spec.ports, ephemeralPort);
      InsertContainer(id, spec, resolved);
      return Ok(id), resolved;
    }

    method SetState(ghost o: nat, c: FakeContainer, phase: Phase, logs: string)
      requires o < |objects| && objects[o] == c && ValidObjects(objects, objs, containers, refs)
      modifies c, `objs
      ensures objs == old(objs)[o := old(objs)[o].(phase := phase, logs := logs)]
      ensures ValidObjects(objects, objs, containers, refs)
    {
      c.state := phase;
      c.logs := logs;
      objs := objs[o := objs[o].(phase := phase, logs := logs)];
    }

    // Gives a run of container o its own open channel.
    method OpenSignal(id: ContainerID, ghost o: nat)
      requires ValidChannels(channels, chans, waitChs, signals)
      modifies `waitChs, `channels, `chans, `signals
      ensures old(channels) <= channels && fresh(channels[|old(channels)|..])
      ensures chans == old(chans) + [Chan(o, false)] && signals == old(signals)[id := old(|chans|)]
      ensures ValidChannels(channels, chans, waitChs, signals)
    {
      var ch := new StopChan(|channels|, o);
      waitChs := waitChs[id := ch];
      signals := signals[id := |chans|];
      channels := channels + [ch];
      chans := chans + [Chan(o, false)];
    }

    // Signals the end of the run the map has a channel for, and forgets the channel.
    method CloseSignal(id: ContainerID)
      requires id in waitChs && ValidChannels(channels, chans, waitChs, signals)
      modifies `waitChs, `chans, `signals, waitChs[id]
      ensures chans == CloseChan(old(chans), old(signals)[id])
      ensures signals == old(signals) - {id}
      ensures ValidChannels(channels, chans, waitChs, signals)
    {
      ghost var k := signals[id];
      waitChs[id].Close();
      waitChs := waitChs - {id};
      signals := signals - {id};
      chans := chans[k := chans[k].(closed := true)];
    }

    // Starting a container known not to be running.
    method MarkRunning(id: ContainerID, c: FakeContainer)
      requires Valid() && id in containers && c == containers[id] && c.state != Running
      modifies c, `objs, `waitChs, `channels, `chans, `signals
      ensures Valid() && old(channels) <= channels && fresh(channels[|old(channels)|..])
      ensures objs == old(objs)[refs[id] := old(objs)[refs[id]].(phase := Running, logs := StartLog(id))]
      ensures chans == old(chans) + [Chan(refs[id], false)] && signals == old(signals)[id := old(|chans|)]
    {
      SetState(refs[id], c, Running, StartLog(id));
      assert ValidChannels(channels, chans, waitChs, signals);
      OpenSignal(id, refs[id]);
      assert ValidObjects(objects, objs, containers, refs);
    }

    method StartContainer(id: ContainerID) returns (err: Option<Error>)
      requires Valid()
      modifies `objs, `waitChs, `channels, `chans, `signals, objects
      ensures Valid() && old(channels) <= channels && fresh(channels[|old(channels)|..])
      ensures (State(), err) == StartStep(old(State()), id)
      ensures err.None? ==> id in containers && containers[id].logs == "[" + id + "] container started\n"
    {
      if id !in containers {
        return Some(NotFound);
      }
      var c := containers[id];
      if c.state == Running {
        return Some(Conflict);
      }
      MarkRunning(id, c);
      return None;
    }

    method CloseSignalIfAny(id: ContainerID)
      requires ValidChannels(channels, chans, waitChs, signals)
      modifies channels, `waitChs, `chans, `signals
      ensures ValidChannels(channels, chans, waitChs, signals)
      ensures chans == if id in old(signals) then CloseChan(old(chans), old(signals)[id]) else old(chans)
      ensures signals == old(signals) - {id}
    {
      if id in waitChs {
        CloseSignal(id);
      }
      assert signals == old(signals) - {id};
    }

    // Stopping a container known to be running.
    method MarkExited(id: ContainerID, c: FakeContainer)
      requires Valid() && id in containers && c == containers[id] && c.state == Running
      modifies c, channels, `objs, `waitChs, `chans, `signals
      ensures Valid()
      ensures objs == old(objs)[refs[id] := old(objs)[refs[id]].(phase := Exited)]
      ensures chans == if id in old(signals) then CloseChan(old(chans), old(signals)[id]) else old(chans)
      ensures signals == old(signals) - {id}
    {
      SetState(refs[id], c, Exited, c.logs);
      assert ValidChannels(channels, chans, waitChs, signals);
      CloseSignalIfAny(id);
      assert ValidObjects(objects, objs, containers, refs);
    }

    method StopContainer(id: ContainerID) returns (err: Option<Error>)
      requires Valid()
      modifies `objs, `waitChs, `chans, `signals, objects, channels
      ensures Valid()
      ensures (State(), err) == StopStep(old(State()), id)
    {
      if id !in containers {
        return Some(NotFound);
      }
      var c := containers[id];
      if c.state != Running {
        return Some(Conflict);
      }
      MarkExited(id, c);
      return None;
    }

    // Takes the pointer out of the map; the record itself stays as it is.
    method DropRecord(id: ContainerID)
      requires ValidObjects(objects, objs, containers, refs)
      modifies `containers, `refs
      ensures ValidObjects(objects, objs, containers, refs)
      ensures refs == old(refs) - {id}
    {
      containers := containers - {id};
      refs := refs - {id};
    }

    // Removing a live container from the map and from every network.
    method Forget(id: ContainerID)
      requires Valid() && id in containers
      modifies `containers, `refs, `netMembers
      ensures Valid() && refs == old(refs) - {id} && netMembers == LeaveAll(old(netMembers), id)
    {
      DropRecord(id);
      DetachAll(id);
    }

    method RemoveContainer(id: ContainerID, force: bool) returns (err: Option<Error>)
      requires Valid()
      modifies `containers, `refs, `netMembers
      ensures Valid()
      ensures (State(), err) == RemoveStep(old(State()), id, force)
    {
      if id !in containers {
        return Some(NotFound);
      }
      if containers[id].state == Running && !force {
        return Some(Conflict);
      }
      Forget(id);
      return None;
    }

    method CreateNetwork(name: string, driver: string) returns (id: NetworkID)
      requires Valid()
      modifies `networks
      ensures Valid()
      ensures (State(), id) == CreateNetworkStep(old(State()), name, driver)
    {
      id := "fake-net-" + name;
      networks := networks[id := Network(name, driver)];
    }

    method RemoveNetwork(net: NetworkID) returns (err: Option<Error>)
      requires Valid()
      modifies `networks, `netMembers
      ensures Valid()
      ensures (State(), err) == RemoveNetworkStep(old(State()), net)
    {
      if net !in networks {
        return Some(NotFound);
      }
      networks := networks - {net};
      netMembers := netMembers - {net};
      return None;
    }

    method ConnectContainer(net: NetworkID, id: ContainerID) returns (err: Option<Error>)
      requires Valid()
      modifies `netMembers
      ensures Valid()
      ensures (State(), err) == ConnectStep(old(State()), net, id)
    {
      if id !in containers {
        return Some(NotFound);
      }
      Attach(net, id);
      return None;
    }

    method DisconnectContainer(net: NetworkID, id: ContainerID) returns (err: Option<Error>)
      requires Valid()
      modifies `netMembers
      ensures Valid()
      ensures (State(), err) == DisconnectStep(old(State()), net, id)
    {
      if id !in containers {
        return Some(NotFound);
      }
      if net in netMembers {
        Detach(net, id);
      }
      return None;
    }

    // The live containers, all of them or the running ones, in the arbitrary order of the map iteration.
    method ListContainers(all: bool) returns (out: seq<Summary>)
      requires Valid()
      ensures forall i, j | 0 <= i < j < |out| :: out[i].id != out[j].id
      ensures forall c :: c in out <==> Listed(State(), all, c)
    {
      out := [];
      var todo := containers.Keys;
      while todo != {}
        invariant todo <= containers.Keys
        invariant forall i, j | 0 <= i < j < |out| :: out[i].id != out[j].id
        invariant forall c :: c in out <==> c.id !in todo && Listed(State(), all, c)
      {
        var id :| id in todo;
        todo := todo - {id};
        var c := containers[id];
        if all || c.state == Running {
          out := out + [Summary(id, c.spec.name, c.spec.image, c.state, c.spec.labels)];
        }
      }
    }

    // The text of the last start, or nothing for a container never started.
    method ContainerLogs(id: ContainerID) returns (r: Result<string, Error>)
      requires Valid()
      ensures r == if id in State().containers then Ok(State().objs[State().containers[id]].logs) else Err(NotFound)
    {
      if id !in containers {
        return Err(NotFound);
      }
      return Ok(containers[id].logs);
    }

    method Inspect(id: ContainerID) returns (r: Result<Info, Error>)
      requires Valid()
      ensures r.Err? <==> id !in State().containers
      ensures r.Err? ==> r.error == NotFound
      ensures r.Ok? ==>
                var o := State().objs[State().containers[id]];
                r.value == Info(id, o.spec.name, o.spec.image, o.spec.labels, o.phase == Running,
                                o.spec.command + o.spec.args, o.ports)
    {
      if id !in containers {
        return Err(NotFound);
      }
      var c := containers[id];
      return Ok(Info(id, c.spec.name, c.spec.image, c.spec.labels, c.state == Running,
                     c.spec.command + c.spec.args, c.ports));
    }

    // One row of the membership relation, each member once.
    method NetworkMembers(net: NetworkID) returns (out: seq<ContainerID>)
      requires Valid()
      ensures forall i, j | 0 <= i < j < |out| :: out[i] != out[j]
      ensures forall id :: id in out <==> net in State().netMembers && id in State().netMembers[net]
    {
      out := [];
      var members := if net in netMembers then netMembers[net] else {};
      var todo := members;
      while todo != {}
        invariant todo <= members
        invariant forall i, j | 0 <= i < j < |out| :: out[i] != out[j]
        invariant forall id :: id in out <==> id in members - todo
      {
        var id :| id in todo;
        assert id !in out;
        todo := todo - {id};
        out := out + [id];
      }
    }

    // WaitContainer up to its goroutine, run without interference: resolved at once, or left blocking on the
    // open channel of the container's current run.
    method WaitContainer(id: ContainerID) returns (r: Result<WaitStart, Error>)
      requires Valid()
      ensures r.Err? <==> id !in State().containers
      ensures r.Ok? ==>
                var s := State();
                if s.objs[s.containers[id]].phase == Running && id in s.waitChs
                then r.value == Blocks(channels[s.waitChs[id]]) && !s.chans[s.waitChs[id]].closed
                else r.value == ResolvesAtOnce
    {
      if id !in containers {
        return Err(NotFound);
      }
      var c := containers[id];
      var stopCh: StopChan? := if id in waitChs then waitChs[id] else null;
      if c.state != Running || stopCh == null {
        return Ok(ResolvesAtOnce);
      }
      return Ok(Blocks(stopCh));
    }
  }
}
