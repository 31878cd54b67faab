/** The value of the in-memory engine `Fake` (currustest/fake.go) and the effect of each of its atomic
    sections: everything one method does while it holds the mutex, or one atomic counter increment.

    A container object and a stop channel keep an identity (their position in `objs` and `chans`) after they
    leave the maps, because a waiter may still hold a pointer to them. */
module FakeStore {
  import opened Outcomes
  import opened Decimal
  import opened Ports

  const TWO64: nat := 0x1_0000_0000_0000_0000
  const TWO16: nat := 0x1_0000

  type uint64 = n: int | 0 <= n < TWO64

  type ContainerID = string
  type NetworkID = string

  datatype Phase = Created | Running | Exited

  datatype Spec = Spec(
    image: string,
    name: string,
    labels: map<string, string>,
    command: seq<string>,
    args: seq<string>,
    networks: seq<string>,
    ports: seq<Port>)

  datatype Obj = Obj(id: ContainerID, spec: Spec, ports: seq<Port>, phase: Phase, logs: string)

  // owner: the container object whose start made the channel.
  datatype Chan = Chan(owner: nat, closed: bool)

  datatype Network = Network(name: string, driver: string)

  datatype Store = Store(
    objs: seq<Obj>,
    containers: map<ContainerID, nat>,
    networks: map<NetworkID, Network>,
    netMembers: map<NetworkID, set<ContainerID>>,
    chans: seq<Chan>,
    waitChs: map<ContainerID, nat>,
    counter: uint64,
    ephemeralPort: uint64)

  datatype Error = NotFound | Conflict | InvalidSpec

  // The maps point at objects that exist.
  ghost predicate Refs(s: Store) {
    && (forall id | id in s.containers :: s.containers[id] < |s.objs|)
    && (forall id | id in s.waitChs :: s.waitChs[id] < |s.chans|)
  }

  // New: the port counter is stored so that the first increment returns 32768.
  const EMPTY: Store := Store([], map[], map[], map[], [], map[], 0, 32767)

  // atomic.Uint64.Add(1) wraps around.
  function Add1(c: uint64): uint64 {
    (c + 1) % TWO64
  }

  function IdOf(n: nat): ContainerID {
    "fake-" + Format(n)
  }

  // One entry of resolveEphemeralPorts, once its host port is known.
  function Entry(p: Port, host: uint16): Port {
    Port(p.container, host, p.hostIP, Protocol(p))
  }

  function ZeroHosts(ports: seq<Port>): nat {
    if ports == [] then 0
    else ZeroHosts(ports[..|ports| - 1]) + (if ports[|ports| - 1].host == 0 then 1 else 0)
  }

  // Every entry resolved in input order: explicit hosts kept, the i-th zero host replaced by hosts[i].
  function Resolved(ports: seq<Port>, hosts: seq<uint16>): (out: seq<Port>)
    requires |hosts| == ZeroHosts(ports)
    ensures |out| == |ports|
  {
    if ports == [] then []
    else
      var n := |ports| - 1;
      if ports[n].host == 0 then
        Resolved(ports[..n], hosts[..|hosts| - 1]) + [Entry(ports[n], hosts[|hosts| - 1])]
      else
        Resolved(ports[..n], hosts) + [Entry(ports[n], ports[n].host)]
  }

  lemma ZeroHostsSnoc(ports: seq<Port>, p: Port)
    ensures ZeroHosts(ports + [p]) == ZeroHosts(ports) + (if p.host == 0 then 1 else 0)
  {
    assert (ports + [p])[..|ports + [p]| - 1] == ports;
  }

  lemma ResolvedDrawn(ports: seq<Port>, p: Port, hosts: seq<uint16>, host: uint16)
    requires |hosts| == ZeroHosts(ports) && p.host == 0
    ensures |hosts + [host]| == ZeroHosts(ports + [p])
    ensures Resolved(ports + [p], hosts + [host]) == Resolved(ports, hosts) + [Entry(p, host)]
  {
    ZeroHostsSnoc(ports, p);
    assert (ports + [p])[..|ports + [p]| - 1] == ports;
    assert (hosts + [host])[..|hosts + [host]| - 1] == hosts;
  }

  lemma ResolvedKept(ports: seq<Port>, p: Port, hosts: seq<uint16>)
    requires |hosts| == ZeroHosts(ports) && p.host != 0
    ensures |hosts| == ZeroHosts(ports + [p])
    ensures Resolved(ports + [p], hosts) == Resolved(ports, hosts) + [Entry(p, p.host)]
  {
    ZeroHostsSnoc(ports, p);
    assert (ports + [p])[..|ports + [p]| - 1] == ports;
  }

  // The counter after n increments, and the host port that the n-th one yields.
  function Advance(c: uint64, n: nat): uint64 {
    (c + n) % TWO64
  }

  function Low16(c: uint64): uint16 {
    c % TWO16
  }

  // The host ports n increments yield, starting from counter value c.
  ghost function Draws(c: uint64, n: nat): (hosts: seq<uint16>)
    ensures |hosts| == n
  {
    if n == 0 then [] else Draws(c, n - 1) + [Low16(Advance(c, n))]
  }

  lemma {:induction false} ModAdds(a: nat, k: nat)
    ensures (TWO16 * k + a) % TWO16 == a % TWO16
  {
    if k > 0 {
      ModAdds(a, k - 1);
      assert TWO16 * k + a == TWO16 * (k - 1) + a + TWO16;
    }
  }

  // 2^16 divides 2^64, so the wrap of the counter never shows in the port.
  lemma Low16OfAdvance(c: uint64, n: nat)
    ensures Low16(Advance(c, n)) == (c + n) % TWO16
  {
    var q := (c + n) / TWO64;
    assert c + n == q * TWO64 + Advance(c, n);
    assert TWO64 == TWO16 * 0x1_0000_0000_0000;
    assert c + n == TWO16 * (q * 0x1_0000_0000_0000) + Advance(c, n);
    ModAdds(Advance(c, n), q * 0x1_0000_0000_0000);
  }

  // hosts are the low 16 bits of the numbers after c, one by one.
  ghost predicate Consecutive(c: uint64, hosts: seq<uint16>) {
    forall i | 0 <= i < |hosts| :: hosts[i] == (c + 1 + i) % 0x1_0000
  }

  lemma {:induction false} DrawsConsecutive(c: uint64, n: nat)
    ensures Consecutive(c, Draws(c, n))
  {
    if n > 0 {
      DrawsConsecutive(c, n - 1);
      Low16OfAdvance(c, n);
    }
  }

  // The entries before the i-th that ask for an ephemeral port.
  ghost function AskedBefore(ports: seq<Port>, i: nat): set<nat> {
    set j: nat | j < i && j < |ports| && ports[j].host == 0
  }

  // q is entry i resolved: everything as given, an empty protocol read as "tcp", and a zero host replaced by the next
  // of hosts that no earlier entry took.
  ghost predicate FillsAt(ports: seq<Port>, hosts: seq<uint16>, i: nat, q: Port)
    requires i < |ports|
  {
    && q.container == ports[i].container && q.hostIP == ports[i].hostIP
    && q.protocol == (if ports[i].protocol == "" then "tcp" else ports[i].protocol)
    && (ports[i].host != 0 ==> q.host == ports[i].host)
    && (ports[i].host == 0 ==> |AskedBefore(ports, i)| < |hosts| && q.host == hosts[|AskedBefore(ports, i)|])
  }

  ghost predicate Fills(ports: seq<Port>, hosts: seq<uint16>, out: seq<Port>) {
    && |out| == |ports| && |hosts| == |AskedBefore(ports, |ports|)|
    && forall i | 0 <= i < |ports| :: FillsAt(ports, hosts, i, out[i])
  }

  lemma AskedSnoc(ports: seq<Port>, p: Port)
    ensures forall i: nat | i <= |ports| :: AskedBefore(ports + [p], i) == AskedBefore(ports, i)
    ensures |AskedBefore(ports + [p], |ports| + 1)| == |AskedBefore(ports, |ports|)| + (if p.host == 0 then 1 else 0)
  {
    var before, after := AskedBefore(ports, |ports|), AskedBefore(ports + [p], |ports| + 1);
    if p.host == 0 {
      assert after == before + {|ports|} && |ports| !in before;
    } else {
      assert after == before;
    }
  }

  lemma FillsSnoc(ports: seq<Port>, hosts: seq<uint16>, out: seq<Port>, p: Port, more: seq<uint16>, host: uint16)
    requires Fills(ports, hosts, out)
    requires more == (if p.host == 0 then [host] else []) && (p.host != 0 ==> host == p.host)
    ensures Fills(ports + [p], hosts + more, out + [Entry(p, host)])
  {
    AskedSnoc(ports, p);
    forall i | 0 <= i < |ports + [p]| ensures FillsAt(ports + [p], hosts + more, i, (out + [Entry(p, host)])[i]) {
      if i < |ports| {
        assert FillsAt(ports, hosts, i, out[i]);
      }
    }
  }

  // Resolution fills the spec in, entry by entry.
  lemma {:induction false} ResolvedFills(ports: seq<Port>, hosts: seq<uint16>)
    requires |hosts| == ZeroHosts(ports)
    ensures Fills(ports, hosts, Resolved(ports, hosts))
  {
    if ports == [] {
      assert AskedBefore(ports, 0) == {};
    } else {
      var before, p := ports[..|ports| - 1], ports[|ports| - 1];
      assert ports == before + [p];
      if p.host == 0 {
        var n := |hosts| - 1;
        assert hosts == hosts[..n] + [hosts[n]];
        ResolvedFills(before, hosts[..n]);
        FillsSnoc(before, hosts[..n], Resolved(before, hosts[..n]), p, [hosts[n]], hosts[n]);
      } else {
        assert hosts + [] == hosts;
        ResolvedFills(before, hosts);
        FillsSnoc(before, hosts, Resolved(before, hosts), p, [], p.host);
      }
    }
  }

  // The entries resolved without interference from a counter that stood at c.
  ghost function ResolvedAfter(c: uint64, ports: seq<Port>): seq<Port> {
    Resolved(ports, Draws(c, ZeroHosts(ports)))
  }

  lemma ResolvedAfterSnoc(c: uint64, ports: seq<Port>, p: Port)
    ensures var host := if p.host == 0 then Low16(Advance(c, ZeroHosts(ports) + 1)) else p.host;
            ResolvedAfter(c, ports + [p]) == ResolvedAfter(c, ports) + [Entry(p, host)]
  {
    var hosts := Draws(c, ZeroHosts(ports));
    ZeroHostsSnoc(ports, p);
    if p.host == 0 {
      ResolvedDrawn(ports, p, hosts, Low16(Advance(c, ZeroHosts(ports) + 1)));
    } else {
      ResolvedKept(ports, p, hosts);
    }
  }

  // out is, in ascending order, the spec filled in with the ports drawn from a counter that stood at c.
  ghost predicate ResolvedFrom(c: uint64, ports: seq<Port>, out: seq<Port>) {
    exists hosts, filled :: Consecutive(c, hosts) && Fills(ports, hosts, filled) && SortedPorts(out, filled)
  }

  lemma SortedIsResolvedFrom(c: uint64, ports: seq<Port>, out: seq<Port>)
    requires SortedPorts(out, ResolvedAfter(c, ports))
    ensures ResolvedFrom(c, ports, out)
  {
    DrawsConsecutive(c, ZeroHosts(ports));
    ResolvedFills(ports, Draws(c, ZeroHosts(ports)));
  }

  lemma AdvanceStep(c: uint64, n: nat)
    ensures Add1(Advance(c, n)) == Advance(c, n + 1)
  {
  }

  function Join(m: map<NetworkID, set<ContainerID>>, net: NetworkID,
                id: ContainerID): map<NetworkID, set<ContainerID>> {
    m[net := (if net in m then m[net] else {}) + {id}]
  }

  function JoinAll(m: map<NetworkID, set<ContainerID>>, nets: seq<NetworkID>,
                   id: ContainerID): map<NetworkID, set<ContainerID>> {
    if nets == [] then m else Join(JoinAll(m, nets[..|nets| - 1], id), nets[|nets| - 1], id)
  }

  // The locked part of CreateContainer.
  function InsertStep(s: Store, id: ContainerID, spec: Spec, ports: seq<Port>): (r: Store)
    requires Refs(s)
    ensures Refs(r)
  {
    s.(objs := s.objs + [Obj(id, spec, ports, Created, "")],
       containers := s.containers[id := |s.objs|],
       netMembers := JoinAll(s.netMembers, spec.networks, id))
  }

  // A member set without id, dropped when that leaves it empty.
  function Leave(m: map<NetworkID, set<ContainerID>>, net: NetworkID,
                 id: ContainerID): map<NetworkID, set<ContainerID>> {
    if net !in m then m
    else if m[net] - {id} == {} then m - {net}
    else m[net := m[net] - {id}]
  }

  function LeaveAll(m: map<NetworkID, set<ContainerID>>, id: ContainerID): map<NetworkID, set<ContainerID>> {
    map net | net in m && m[net] - {id} != {} :: m[net] - {id}
  }

  // The log a start writes over whatever was there.
  function StartLog(id: ContainerID): string {
    "[" + id + "] container started\n"
  }

  function StartStep(s: Store, id: ContainerID): (r: (Store, Option<Error>))
    requires Refs(s)
    ensures Refs(r.0)
  {
    if id !in s.containers then (s, Some(NotFound))
    else
      var o := s.containers[id];
      if s.objs[o].phase == Running then (s, Some(Conflict))
      else
        (s.(objs := s.objs[o := s.objs[o].(phase := Running, logs := StartLog(id))],
            chans := s.chans + [Chan(o, false)],
            waitChs := s.waitChs[id := |s.chans|]),
         None)
  }

  function CloseChan(chans: seq<Chan>, c: nat): seq<Chan>
    requires c < |chans|
  {
    chans[c := chans[c].(closed := true)]
  }

  function StopStep(s: Store, id: ContainerID): (r: (Store, Option<Error>))
    requires Refs(s)
    ensures Refs(r.0)
  {
    if id !in s.containers then (s, Some(NotFound))
    else
      var o := s.containers[id];
      if s.objs[o].phase != Running then (s, Some(Conflict))
      else
        (s.(objs := s.objs[o := s.objs[o].(phase := Exited)],
            chans := if id in s.waitChs then CloseChan(s.chans, s.waitChs[id]) else s.chans,
            waitChs := s.waitChs - {id}),
         None)
  }

  function RemoveStep(s: Store, id: ContainerID, force: bool): (r: (Store, Option<Error>))
    requires Refs(s)
    ensures Refs(r.0)
  {
    if id !in s.containers then (s, Some(NotFound))
    else if s.objs[s.containers[id]].phase == Running && !force then (s, Some(Conflict))
    else (s.(containers := s.containers - {id}, netMembers := LeaveAll(s.netMembers, id)), None)
  }

  function CreateNetworkStep(s: Store, name: string, driver: string): (Store, NetworkID) {
    var id := "fake-net-" + name;
    (s.(networks := s.networks[id := Network(name, driver)]), id)
  }

  function RemoveNetworkStep(s: Store, net: NetworkID): (Store, Option<Error>) {
    if net !in s.networks then (s, Some(NotFound))
    else (s.(networks := s.networks - {net}, netMembers := s.netMembers - {net}), None)
  }

  function ConnectStep(s: Store, net: NetworkID, id: ContainerID): (Store, Option<Error>) {
    if id !in s.containers then (s, Some(NotFound))
    else (s.(netMembers := Join(s.netMembers, net, id)), None)
  }

  function DisconnectStep(s: Store, net: NetworkID, id: ContainerID): (Store, Option<Error>) {
    if id !in s.containers then (s, Some(NotFound))
    else (s.(netMembers := Leave(s.netMembers, net, id)), None)
  }

  // The locked operations whose effect depends on the store alone.
  datatype Op =
    | Start(id: ContainerID)
    | Stop(id: ContainerID)
    | Remove(id: ContainerID, force: bool)
    | CreateNetwork(name: string, driver: string)
    | RemoveNetwork(net: NetworkID)
    | Connect(net: NetworkID, id: ContainerID)
    | Disconnect(net: NetworkID, id: ContainerID)

  function ApplyOp(s: Store, op: Op): (r: (Store, Option<Error>))
    requires Refs(s)
    ensures Refs(r.0)
    ensures |r.0.objs| == |s.objs| && |s.chans| <= |r.0.chans|
    ensures r.0.counter == s.counter && r.0.ephemeralPort == s.ephemeralPort
  {
    match op
    case Start(id) => StartStep(s, id)
    case Stop(id) => StopStep(s, id)
    case Remove(id, force) => RemoveStep(s, id, force)
    case CreateNetwork(name, driver) => (CreateNetworkStep(s, name, driver).0, None)
    case RemoveNetwork(net) => RemoveNetworkStep(s, net)
    case Connect(net, id) => ConnectStep(s, net, id)
    case Disconnect(net, id) => DisconnectStep(s, net, id)
  }
}
