/** The Docker driver's two port conversions, driver_docker.go `dockerConvertPorts` (spec to engine)
    and `dockerInspectPorts` (engine to info), and what the pair does to a port list. */
module DockerPorts {
  import opened Outcomes
  import opened Decimal
  import opened Ports
  import opened Selections

  datatype PortKey = PortKey(num: uint16, proto: string)

  datatype Binding<Addr> = Binding(hostIP: Option<Addr>, hostPort: string)

  type PortMap<Addr> = map<PortKey, seq<Binding<Addr>>>

  // The libraries underneath: network.ParsePort, netip.ParseAddr and netip.Addr.String.
  datatype NetLib<!Addr> = NetLib(
    parsePort: string -> Option<PortKey>,
    parseAddr: string -> Option<Addr>,
    printAddr: Addr -> string)

  datatype SpecError = BadPort(index: nat) | BadHostIP(index: nat)

  function PortText(num: uint16, proto: string): string {
    Format(num) + "/" + proto
  }

  function ParseKey<Addr>(lib: NetLib<Addr>, p: Port): Option<PortKey> {
    lib.parsePort(PortText(p.container, Protocol(p)))
  }

  predicate AddrAccepted<Addr>(lib: NetLib<Addr>, p: Port) {
    p.hostIP == "" || lib.parseAddr(p.hostIP).Some?
  }

  predicate Accepted<Addr>(lib: NetLib<Addr>, p: Port) {
    ParseKey(lib, p).Some? && AddrAccepted(lib, p)
  }

  function BindingOf<Addr>(lib: NetLib<Addr>, p: Port): Binding<Addr> {
    Binding(
      if p.hostIP == "" then None else lib.parseAddr(p.hostIP),
      if p.host == 0 then "" else Format(p.host))
  }

  ghost predicate AllAccepted<Addr>(lib: NetLib<Addr>, ports: seq<Port>) {
    forall p | p in ports :: Accepted(lib, p)
  }

  // The bindings of the ports filed under key k, in list order.
  ghost function BindingsFor<Addr>(lib: NetLib<Addr>, ports: seq<Port>, k: PortKey): seq<Binding<Addr>> {
    if ports == [] then []
    else
      var p := ports[|ports| - 1];
      BindingsFor(lib, ports[..|ports| - 1], k) +
      (if ParseKey(lib, p) == Some(k) then [BindingOf(lib, p)] else [])
  }

  ghost predicate FiledUnder<Addr>(lib: NetLib<Addr>, ports: seq<Port>, k: PortKey) {
    exists p | p in ports :: ParseKey(lib, p) == Some(k)
  }

  // pm files every port under its own key and keeps list order within a key.
  ghost predicate Groups<Addr>(lib: NetLib<Addr>, ports: seq<Port>, pm: PortMap<Addr>) {
    && (forall k :: k in pm <==> FiledUnder(lib, ports, k))
    && (forall k | k in pm :: pm[k] == BindingsFor(lib, ports, k))
  }

  // The binding of one port whose container port parsed; None when its host address does not parse.
  method ConvertBinding<Addr(==)>(lib: NetLib<Addr>, p: Port) returns (b: Option<Binding<Addr>>)
    ensures b == if AddrAccepted(lib, p) then Some(BindingOf(lib, p)) else None
  {
    var binding := Binding(None, "");
    if p.hostIP != "" {
      var addr := lib.parseAddr(p.hostIP);
      if addr.None? {
        return None;
      }
      binding := binding.(hostIP := addr);
    }
    if p.host != 0 {
      binding := binding.(hostPort := Format(p.host));
    }
    return Some(binding);
  }

  lemma BindingsSnoc<Addr>(lib: NetLib<Addr>, before: seq<Port>, p: Port, k: PortKey)
    ensures BindingsFor(lib, before + [p], k) ==
            BindingsFor(lib, before, k) + (if ParseKey(lib, p) == Some(k) then [BindingOf(lib, p)] else [])
  {
    assert (before + [p])[..|before + [p]| - 1] == before;
  }

  lemma FiledSnoc<Addr>(lib: NetLib<Addr>, before: seq<Port>, p: Port, k: PortKey)
    ensures FiledUnder(lib, before + [p], k) <==> ParseKey(lib, p) == Some(k) || FiledUnder(lib, before, k)
  {
    assert p in before + [p];
    if FiledUnder(lib, before, k) {
      var q :| q in before && ParseKey(lib, q) == Some(k);
      assert q in before + [p];
    }
  }

  lemma {:induction false} NoBindings<Addr>(lib: NetLib<Addr>, ports: seq<Port>, k: PortKey)
    requires !FiledUnder(lib, ports, k)
    ensures BindingsFor(lib, ports, k) == []
  {
    if ports != [] {
      assert ports[|ports| - 1] in ports;
      assert forall p | p in ports[..|ports| - 1] :: p in ports;
      NoBindings(lib, ports[..|ports| - 1], k);
    }
  }

  // What filing one more port does under key k.
  lemma GroupsAt<Addr>(lib: NetLib<Addr>, before: seq<Port>, p: Port, pm: PortMap<Addr>, key: PortKey, k: PortKey)
    requires Groups(lib, before, pm) && ParseKey(lib, p) == Some(key)
    ensures var next := pm[key := (if key in pm then pm[key] else []) + [BindingOf(lib, p)]];
            && (k in next <==> FiledUnder(lib, before + [p], k))
            && (k in next ==> next[k] == BindingsFor(lib, before + [p], k))
  {
    FiledSnoc(lib, before, p, k);
    BindingsSnoc(lib, before, p, k);
    if k !in pm {
      NoBindings(lib, before, k);
    } else if k != key {
      assert BindingsFor(lib, before, k) + [] == BindingsFor(lib, before, k);
    }
  }

  lemma GroupsStep<Addr>(lib: NetLib<Addr>, before: seq<Port>, p: Port, pm: PortMap<Addr>)
    requires Groups(lib, before, pm) && Accepted(lib, p)
    ensures var k := ParseKey(lib, p).value;
            Groups(lib, before + [p], pm[k := (if k in pm then pm[k] else []) + [BindingOf(lib, p)]])
  {
    forall k {
      GroupsAt(lib, before, p, pm, ParseKey(lib, p).value, k);
    }
  }

  // Port p is filed under key k.
  ghost predicate FilesUnder<Addr>(lib: NetLib<Addr>, p: Port, k: PortKey) {
    lib.parsePort(Format(p.container) + "/" + if p.protocol == "" then "tcp" else p.protocol) == Some(k)
  }

  ghost predicate PortParses<Addr>(lib: NetLib<Addr>, p: Port) {
    exists k :: FilesUnder(lib, p, k)
  }

  ghost predicate HostIPParses<Addr>(lib: NetLib<Addr>, p: Port) {
    p.hostIP != "" ==> lib.parseAddr(p.hostIP).Some?
  }

  lemma AcceptedParses<Addr>(lib: NetLib<Addr>, p: Port)
    ensures ParseKey(lib, p).Some? <==> PortParses(lib, p)
    ensures AddrAccepted(lib, p) <==> HostIPParses(lib, p)
  {
    if ParseKey(lib, p).Some? {
      assert FilesUnder(lib, p, ParseKey(lib, p).value);
    }
  }

  lemma AllAcceptedParse<Addr>(lib: NetLib<Addr>, ports: seq<Port>)
    ensures AllAccepted(lib, ports) <==> forall p | p in ports :: PortParses(lib, p) && HostIPParses(lib, p)
  {
    forall p | p in ports {
      AcceptedParses(lib, p);
    }
  }

  lemma PrefixParses<Addr>(lib: NetLib<Addr>, ports: seq<Port>, n: nat)
    requires n < |ports| && AllAccepted(lib, ports[..n])
    ensures forall i | 0 <= i < n :: PortParses(lib, ports[i]) && HostIPParses(lib, ports[i])
    ensures ParseKey(lib, ports[n]).Some? <==> PortParses(lib, ports[n])
    ensures AddrAccepted(lib, ports[n]) <==> HostIPParses(lib, ports[n])
  {
    forall i | 0 <= i < n ensures PortParses(lib, ports[i]) && HostIPParses(lib, ports[i]) {
      assert ports[..n][i] in ports[..n];
      AcceptedParses(lib, ports[i]);
    }
    AcceptedParses(lib, ports[n]);
  }

  ghost function FiledAt<Addr>(lib: NetLib<Addr>, ports: seq<Port>, k: PortKey): set<nat> {
    set i: nat | i < |ports| && FilesUnder(lib, ports[i], k)
  }

  // b binds p: no address and no host port where the spec gives none, else the parsed address and the decimal port.
  ghost predicate Binds<Addr>(lib: NetLib<Addr>, b: Binding<Addr>, p: Port) {
    && b.hostIP == (if p.hostIP == "" then None else lib.parseAddr(p.hostIP))
    && b.hostPort == (if p.host == 0 then "" else Format(p.host))
  }

  ghost predicate BindsAll<Addr>(lib: NetLib<Addr>, ports: seq<Port>, idx: seq<nat>, bs: seq<Binding<Addr>>) {
    |idx| == |bs| && forall j | 0 <= j < |idx| :: idx[j] < |ports| && Binds(lib, bs[j], ports[idx[j]])
  }

  lemma BindsSnoc<Addr>(lib: NetLib<Addr>, ports: seq<Port>, idx: seq<nat>, bs: seq<Binding<Addr>>, p: Port)
    requires BindsAll(lib, ports, idx, bs)
    ensures BindsAll(lib, ports + [p], idx, bs) && BindsAll(lib, ports + [p], idx + [|ports|], bs + [BindingOf(lib, p)])
  {
    assert Binds(lib, BindingOf(lib, p), p);
  }

  // Under every key the map holds the bindings of exactly the ports filed under it, in list order, and it has no
  // other keys.
  ghost predicate FilesInOrder<Addr>(lib: NetLib<Addr>, ports: seq<Port>, pm: PortMap<Addr>) {
    && (forall k :: k in pm <==> FiledAt(lib, ports, k) != {})
    && (forall k | k in pm :: exists idx ::
          Lists(idx, FiledAt(lib, ports, k)) && BindsAll(lib, ports, idx, pm[k]))
  }

  lemma FiledAtSnoc<Addr>(lib: NetLib<Addr>, ports: seq<Port>, p: Port, k: PortKey)
    ensures FiledAt(lib, ports + [p], k) == FiledAt(lib, ports, k) + (if ParseKey(lib, p) ==
            Some(k) then {|ports|} else {})
  {
    assert FilesUnder(lib, p, k) <==> ParseKey(lib, p) == Some(k);
  }

  lemma {:induction false} BindingsAt<Addr>(lib: NetLib<Addr>, ports: seq<Port>, k: PortKey) returns (idx: seq<nat>)
    ensures Lists(idx, FiledAt(lib, ports, k)) && BindsAll(lib, ports, idx, BindingsFor(lib, ports, k))
  {
    if ports == [] {
      idx := [];
    } else {
      var before, p := ports[..|ports| - 1], ports[|ports| - 1];
      assert ports == before + [p];
      idx := BindingsAt(lib, before, k);
      FiledAtSnoc(lib, before, p, k);
      BindingsSnoc(lib, before, p, k);
      BindsSnoc(lib, before, idx, BindingsFor(lib, before, k), p);
      if ParseKey(lib, p) == Some(k) {
        ListsSnoc(idx, FiledAt(lib, before, k), |before|);
        idx := idx + [|before|];
      }
    }
  }

  lemma GroupsFile<Addr>(lib: NetLib<Addr>, ports: seq<Port>, pm: PortMap<Addr>)
    requires Groups(lib, ports, pm)
    ensures FilesInOrder(lib, ports, pm)
  {
    forall k ensures k in pm <==> FiledAt(lib, ports, k) != {} {
      if p :| p in ports && ParseKey(lib, p) == Some(k) {
        var i :| 0 <= i < |ports| && ports[i] == p;
        assert i in FiledAt(lib, ports, k);
      }
      if i :| i in FiledAt(lib, ports, k) {
        assert ports[i] in ports && ParseKey(lib, ports[i]) == Some(k);
      }
    }
    forall k | k in pm ensures exists idx ::
        Lists(idx, FiledAt(lib, ports, k)) && BindsAll(lib, ports, idx, pm[k])
    {
      var idx := BindingsAt(lib, ports, k);
    }
  }

  // dockerConvertPorts: the conversion stops at the first port it cannot parse.
  method ConvertPorts<Addr(==)>(lib: NetLib<Addr>, ports: seq<Port>) returns (r: Result<PortMap<Addr>, SpecError>)
    ensures r.Ok? <==> AllAccepted(lib, ports)
    ensures r.Ok? <==> forall p | p in ports :: PortParses(lib, p) && HostIPParses(lib, p)
    ensures r.Ok? ==> Groups(lib, ports, r.value) && FilesInOrder(lib, ports, r.value)
    ensures r.Err? ==>
              && r.error.index < |ports|
              && AllAccepted(lib, ports[..r.error.index])
              && (r.error.BadPort? <==> ParseKey(lib, ports[r.error.index]).None?)
              && (r.error.BadHostIP? ==> !AddrAccepted(lib, ports[r.error.index]))
    ensures r.Err? ==>
              && (forall i | 0 <= i < r.error.index :: PortParses(lib, ports[i]) && HostIPParses(lib, ports[i]))
              && (r.error.BadPort? <==> !PortParses(lib, ports[r.error.index]))
              && (r.error.BadHostIP? ==> !HostIPParses(lib, ports[r.error.index]))
  {
    AllAcceptedParse(lib, ports);
    if |ports| == 0 {
      GroupsFile(lib, ports, map[]);
      return Ok(map[]);
    }
    var pm: PortMap<Addr> := map[];
    for i := 0 to |ports|
      invariant AllAccepted(lib, ports[..i])
      invariant Groups(lib, ports[..i], pm)
    {
      var p := ports[i];
      assert p in ports;
      var containerPort := ParseKey(lib, p);
      if containerPort.None? {
        PrefixParses(lib, ports, i);
        return Err(BadPort(i));
      }
      var binding := ConvertBinding(lib, p);
      if binding.None? {
        PrefixParses(lib, ports, i);
        return Err(BadHostIP(i));
      }
      var k := containerPort.value;
      assert ports[..i + 1] == ports[..i] + [p];
      GroupsStep(lib, ports[..i], p, pm);
      pm := pm[k := (if k in pm then pm[k] else []) + [binding.value]];
    }
    assert ports[..|ports|] == ports;
    GroupsFile(lib, ports, pm);
    return Ok(pm);
  }

  // One binding as Inspect reports it; a binding without a host port is skipped.
  function Emit<Addr>(lib: NetLib<Addr>, k: PortKey, b: Binding<Addr>): seq<Port> {
    if b.hostPort == "" then []
    else [Port(k.num, ParseUint16(b.hostPort), if b.hostIP.Some? then lib.printAddr(b.hostIP.value) else "", k.proto)]
  }

  ghost function EmitAll<Addr>(lib: NetLib<Addr>, k: PortKey, bs: seq<Binding<Addr>>): seq<Port> {
    if bs == [] then [] else EmitAll(lib, k, bs[..|bs| - 1]) + Emit(lib, k, bs[|bs| - 1])
  }

  // The list one iteration order of the port map produces, before sorting.
  ghost function Flatten<Addr>(lib: NetLib<Addr>, pm: PortMap<Addr>, order: seq<PortKey>): seq<Port> {
    if order == [] then []
    else
      var k := order[|order| - 1];
      Flatten(lib, pm, order[..|order| - 1]) + (if k in pm then EmitAll(lib, k, pm[k]) else [])
  }

  ghost predicate Enumerates(order: seq<PortKey>, keys: set<PortKey>) {
    && (forall i, j | 0 <= i < j < |order| :: order[i] != order[j])
    && (forall k :: k in order <==> k in keys)
  }

  // ports is a sorted permutation of what every iteration order of pm collects.
  ghost predicate Inspected<Addr>(lib: NetLib<Addr>, pm: PortMap<Addr>, ports: seq<Port>) {
    forall order | Enumerates(order, pm.Keys) :: SortedPorts(ports, Flatten(lib, pm, order))
  }

  lemma EnumeratesAdd(order: seq<PortKey>, k: PortKey, keys: set<PortKey>)
    requires Enumerates(order, keys) && k !in keys
    ensures Enumerates(order + [k], keys + {k})
  {
    assert forall i | 0 <= i < |order| :: order[i] in order;
  }

  // Every map has an iteration order.
  lemma {:induction false} SomeOrder(keys: set<PortKey>) returns (order: seq<PortKey>)
    ensures Enumerates(order, keys)
  {
    if keys == {} {
      order := [];
    } else {
      var k :| k in keys;
      var rest := SomeOrder(keys - {k});
      EnumeratesAdd(rest, k, keys - {k});
      order := rest + [k];
    }
  }

  function ChosenMap<Addr>(settings: Option<PortMap<Addr>>, bindings: Option<PortMap<Addr>>): PortMap<Addr> {
    if settings.Some? && |settings.value| > 0 then settings.value
    else if bindings.Some? then bindings.value
    else map[]
  }

  lemma EmitAllSnoc<Addr>(lib: NetLib<Addr>, k: PortKey, bs: seq<Binding<Addr>>, b: Binding<Addr>)
    ensures EmitAll(lib, k, bs + [b]) == EmitAll(lib, k, bs) + Emit(lib, k, b)
  {
    assert (bs + [b])[..|bs + [b]| - 1] == bs;
  }

  lemma FlattenSnoc<Addr>(lib: NetLib<Addr>, pm: PortMap<Addr>, order: seq<PortKey>, k: PortKey)
    requires k in pm
    ensures Flatten(lib, pm, order + [k]) == Flatten(lib, pm, order) + EmitAll(lib, k, pm[k])
  {
    assert (order + [k])[..|order + [k]| - 1] == order;
  }

  lemma {:induction false} FlattenConcat<Addr>(lib: NetLib<Addr>, pm: PortMap<Addr>, a: seq<PortKey>, b: seq<PortKey>)
    ensures Flatten(lib, pm, a + b) == Flatten(lib, pm, a) + Flatten(lib, pm, b)
  {
    if b == [] {
      assert a + b == a;
    } else {
      var n := |b| - 1;
      assert (a + b)[..|a + b| - 1] == a + b[..n];
      FlattenConcat(lib, pm, a, b[..n]);
    }
  }

  lemma FlattenSplit<Addr>(lib: NetLib<Addr>, pm: PortMap<Addr>, a: seq<PortKey>, k: PortKey, b: seq<PortKey>)
    ensures multiset(Flatten(lib, pm, a + [k] + b)) ==
            multiset(Flatten(lib, pm, a + b)) + multiset(Flatten(lib, pm, [k]))
  {
    FlattenConcat(lib, pm, a + [k], b);
    FlattenConcat(lib, pm, a, [k]);
    FlattenConcat(lib, pm, a, b);
  }

  lemma EnumeratesRemove(a: seq<PortKey>, k: PortKey, b: seq<PortKey>, keys: set<PortKey>)
    requires Enumerates(a + [k] + b, keys)
    ensures k in keys && Enumerates(a + b, keys - {k})
  {
    var whole := a + [k] + b;
    assert whole[|a|] == k;
    forall i, j | 0 <= i < j < |a + b| ensures (a + b)[i] != (a + b)[j] {
      var i', j' := if i < |a| then i else i + 1, if j < |a| then j else j + 1;
      assert whole[i'] != whole[j'];
    }
    forall x ensures x in a + b <==> x in keys - {k} {
      if x in a + b {
        var i :| 0 <= i < |a + b| && (a + b)[i] == x;
        assert whole[if i < |a| then i else i + 1] == x;
      }
    }
  }

  lemma {:induction false} EnumeratesLength(order: seq<PortKey>, keys: set<PortKey>)
    requires Enumerates(order, keys)
    ensures |order| == |keys|
  {
    if order == [] {
      assert keys == {};
    } else {
      var n := |order| - 1;
      assert order == order[..n] + [order[n]] + [] && order[..n] + [] == order[..n];
      EnumeratesRemove(order[..n], order[n], [], keys);
      EnumeratesLength(order[..n], keys - {order[n]});
    }
  }

  // Map iteration order changes the order of the collected ports, never their multiset.
  lemma {:induction false} FlattenOrderIrrelevant<Addr>(lib: NetLib<Addr>, pm: PortMap<Addr>,
                                                        o1: seq<PortKey>, o2: seq<PortKey>, keys: set<PortKey>)
    requires Enumerates(o1, keys) && Enumerates(o2, keys)
    ensures multiset(Flatten(lib, pm, o1)) == multiset(Flatten(lib, pm, o2))
    decreases |o1|
  {
    if o1 == [] {
      EnumeratesLength(o1, keys);
      EnumeratesLength(o2, keys);
    } else {
      var n := |o1| - 1;
      var k := o1[n];
      assert k in o1;
      var j :| 0 <= j < |o2| && o2[j] == k;
      assert o1 == o1[..n] + [k] + [] && o1[..n] == o1[..n] + [];
      assert o2 == o2[..j] + [k] + o2[j + 1..];
      EnumeratesRemove(o1[..n], k, [], keys);
      EnumeratesRemove(o2[..j], k, o2[j + 1..], keys);
      FlattenSplit(lib, pm, o1[..n], k, []);
      FlattenSplit(lib, pm, o2[..j], k, o2[j + 1..]);
      FlattenOrderIrrelevant(lib, pm, o1[..n], o2[..j] + o2[j + 1..], keys - {k});
    }
  }

  // The inner loop of dockerInspectPorts.
  method CollectBindings<Addr(==)>(lib: NetLib<Addr>, natPort: PortKey, bs: seq<Binding<Addr>>)
    returns (ports: seq<Port>)
    ensures ports == EmitAll(lib, natPort, bs)
  {
    ports := [];
    for i := 0 to |bs|
      invariant ports == EmitAll(lib, natPort, bs[..i])
    {
      assert bs[..i + 1] == bs[..i] + [bs[i]];
      EmitAllSnoc(lib, natPort, bs[..i], bs[i]);
      if bs[i].hostPort == "" {
        continue;
      }
      var hostIP := if bs[i].hostIP.Some? then lib.printAddr(bs[i].hostIP.value) else "";
      ports := ports + [Port(natPort.num, ParseUint16(bs[i].hostPort), hostIP, natPort.proto)];
    }
    assert bs[..|bs|] == bs;
  }

  // Binding b under key k is reported as q: the key's number and protocol, the parsed host port, the printed address.
  ghost predicate ReportedAs<Addr>(lib: NetLib<Addr>, k: PortKey, b: Binding<Addr>, q: Port) {
    && q.container == k.num && q.protocol == k.proto && q.host == ParseUint16(b.hostPort)
    && q.hostIP == (if b.hostIP.Some? then lib.printAddr(b.hostIP.value) else "")
  }

  // The bindings that have a host port; the others are skipped.
  ghost function Bound<Addr>(bs: seq<Binding<Addr>>): set<nat> {
    set j: nat | j < |bs| && bs[j].hostPort != ""
  }

  lemma BoundSnoc<Addr>(bs: seq<Binding<Addr>>, b: Binding<Addr>)
    ensures Bound(bs + [b]) == Bound(bs) + (if b.hostPort != "" then {|bs|} else {})
  {
  }

  lemma EmitReports<Addr>(lib: NetLib<Addr>, k: PortKey, b: Binding<Addr>)
    ensures |Emit(lib, k, b)| == if b.hostPort != "" then 1 else 0
    ensures b.hostPort != "" ==> ReportedAs(lib, k, b, Emit(lib, k, b)[0])
  {
  }

  lemma {:induction false} EmittedAt<Addr>(lib: NetLib<Addr>, k: PortKey, bs: seq<Binding<Addr>>)
    returns (idx: seq<nat>)
    ensures Lists(idx, Bound(bs)) && |idx| == |EmitAll(lib, k, bs)|
    ensures forall i | 0 <= i < |idx| :: idx[i] < |bs| && ReportedAs(lib, k, bs[idx[i]], EmitAll(lib, k, bs)[i])
  {
    if bs == [] {
      idx := [];
    } else {
      var before, b := bs[..|bs| - 1], bs[|bs| - 1];
      assert bs == before + [b];
      idx := EmittedAt(lib, k, before);
      EmitAllSnoc(lib, k, before, b);
      BoundSnoc(before, b);
      EmitReports(lib, k, b);
      if b.hostPort != "" {
        ListsSnoc(idx, Bound(before), |before|);
        idx := idx + [|before|];
      }
    }
  }

  // A binding in the map, by key and position.
  datatype Place = Place(key: PortKey, at: nat)

  // places lists every binding under these keys that has a host port, each once.
  ghost predicate ListsBound<Addr>(pm: PortMap<Addr>, keys: set<PortKey>, places: seq<Place>) {
    && (forall i, j | 0 <= i < j < |places| :: places[i] != places[j])
    && (forall x :: x in places <==> x.key in keys && x.key in pm && x.at in Bound(pm[x.key]))
  }

  ghost predicate PlaceReported<Addr>(lib: NetLib<Addr>, pm: PortMap<Addr>, place: Place, q: Port) {
    place.key in pm && place.at < |pm[place.key]| && ReportedAs(lib, place.key, pm[place.key][place.at], q)
  }

  // ports reports them one by one.
  ghost predicate Collects<Addr>(lib: NetLib<Addr>, pm: PortMap<Addr>, keys: set<PortKey>, places: seq<Place>,
                                 ports: seq<Port>) {
    && ListsBound(pm, keys, places) && |places| == |ports|
    && forall i | 0 <= i < |places| :: PlaceReported(lib, pm, places[i], ports[i])
  }

  lemma OneKeyCollects<Addr>(lib: NetLib<Addr>, pm: PortMap<Addr>, k: PortKey) returns (places: seq<Place>)
    requires k in pm
    ensures Collects(lib, pm, {k}, places, EmitAll(lib, k, pm[k]))
  {
    var idx := EmittedAt(lib, k, pm[k]);
    places := seq(|idx|, i requires 0 <= i < |idx| => Place(k, idx[i]));
    forall x ensures x in places <==> x.key == k && x.at in Bound(pm[k]) {
      if x in places {
        var i :| 0 <= i < |places| && places[i] == x;
        assert idx[i] in idx;
      }
      if x.key == k && x.at in idx {
        var i :| 0 <= i < |idx| && idx[i] == x.at;
        assert places[i] == x;
      }
    }
  }

  lemma AllDifferent(a: seq<Place>, b: seq<Place>)
    requires forall i, j | 0 <= i < j < |a| :: a[i] != a[j]
    requires forall i, j | 0 <= i < j < |b| :: b[i] != b[j]
    requires forall x | x in a :: x !in b
    ensures forall i, j | 0 <= i < j < |a + b| :: (a + b)[i] != (a + b)[j]
  {
    forall i, j | 0 <= i < j < |a + b| ensures (a + b)[i] != (a + b)[j] {
      if i < |a| <= j {
        assert a[i] in a && b[j - |a|] in b;
      }
    }
  }

  lemma ListsBoth<Addr>(pm: PortMap<Addr>, ks: set<PortKey>, places: seq<Place>, ls: set<PortKey>, more: seq<Place>)
    requires ListsBound(pm, ks, places) && ListsBound(pm, ls, more) && ks !! ls
    ensures ListsBound(pm, ks + ls, places + more)
  {
    AllDifferent(places, more);
  }

  lemma CollectsBoth<Addr>(lib: NetLib<Addr>, pm: PortMap<Addr>, ks: set<PortKey>, places: seq<Place>, ports: seq<Port>,
                           ls: set<PortKey>, more: seq<Place>, rest: seq<Port>)
    requires Collects(lib, pm, ks, places, ports) && Collects(lib, pm, ls, more, rest) && ks !! ls
    ensures Collects(lib, pm, ks + ls, places + more, ports + rest)
  {
    ListsBoth(pm, ks, places, ls, more);
    forall i | 0 <= i < |places + more| ensures PlaceReported(lib, pm, (places + more)[i], (ports + rest)[i]) {
      if i < |places| {
        assert PlaceReported(lib, pm, places[i], ports[i]);
      } else {
        assert PlaceReported(lib, pm, more[i - |places|], rest[i - |places|]);
      }
    }
  }

  lemma {:induction false} FlattenCollects<Addr>(lib: NetLib<Addr>, pm: PortMap<Addr>, order: seq<PortKey>,
                                                 keys: set<PortKey>) returns (places: seq<Place>)
    requires Enumerates(order, keys) && keys <= pm.Keys
    ensures Collects(lib, pm, keys, places, Flatten(lib, pm, order))
    decreases |order|
  {
    if order == [] {
      EnumeratesLength(order, keys);
      places := [];
    } else {
      var k, rest := order[|order| - 1], order[..|order| - 1];
      assert order == rest + [k] + [] && rest == rest + [];
      assert k in order;
      EnumeratesRemove(rest, k, [], keys);
      places := FlattenCollects(lib, pm, rest, keys - {k});
      var more := OneKeyCollects(lib, pm, k);
      CollectsBoth(lib, pm, keys - {k}, places, Flatten(lib, pm, rest), {k}, more, EmitAll(lib, k, pm[k]));
      assert keys - {k} + {k} == keys;
      places := places + more;
    }
  }

  // ports is, in ascending order, one report for every binding of the map that has a host port.
  ghost predicate ReportsAll<Addr>(lib: NetLib<Addr>, pm: PortMap<Addr>, ports: seq<Port>) {
    Ascending(ports) && exists places, unsorted ::
      Collects(lib, pm, pm.Keys, places, unsorted) && multiset(ports) == multiset(unsorted)
  }

  lemma InspectedReportsAll<Addr>(lib: NetLib<Addr>, pm: PortMap<Addr>, ports: seq<Port>)
    requires Inspected(lib, pm, ports)
    ensures ReportsAll(lib, pm, ports)
  {
    var order := SomeOrder(pm.Keys);
    var places := FlattenCollects(lib, pm, order, pm.Keys);
    assert SortedPorts(ports, Flatten(lib, pm, order));
  }

  // dockerInspectPorts up to its sort: what some iteration order collects.
  method CollectPorts<Addr(==)>(lib: NetLib<Addr>, portMap: PortMap<Addr>) returns (ports: seq<Port>)
    ensures exists order :: Enumerates(order, portMap.Keys) && ports == Flatten(lib, portMap, order)
  {
    ports := [];
    ghost var order: seq<PortKey> := [];
    var todo := portMap.Keys;
    while todo != {}
      invariant todo <= portMap.Keys
      invariant Enumerates(order, portMap.Keys - todo)
      invariant ports == Flatten(lib, portMap, order)
    {
      var natPort :| natPort in todo;
      var collected := CollectBindings(lib, natPort, portMap[natPort]);
      EnumeratesAdd(order, natPort, portMap.Keys - todo);
      FlattenSnoc(lib, portMap, order, natPort);
      ports := ports + collected;
      order := order + [natPort];
      assert portMap.Keys - todo + {natPort} == portMap.Keys - (todo - {natPort});
      todo := todo - {natPort};
    }
    assert portMap.Keys - todo == portMap.Keys;
  }

  lemma SortedIsInspected<Addr>(lib: NetLib<Addr>, pm: PortMap<Addr>, order: seq<PortKey>, ports: seq<Port>)
    requires Enumerates(order, pm.Keys) && SortedPorts(ports, Flatten(lib, pm, order))
    ensures Inspected(lib, pm, ports)
  {
    forall other | Enumerates(other, pm.Keys) ensures SortedPorts(ports, Flatten(lib, pm, other)) {
      FlattenOrderIrrelevant(lib, pm, order, other, pm.Keys);
    }
  }

  // dockerInspectPorts: whatever order the map iteration takes, the answer is a sorted permutation
  // of what any other order would have collected.
  method InspectPorts<Addr(==)>(lib: NetLib<Addr>, settings: Option<PortMap<Addr>>, bindings: Option<PortMap<Addr>>)
    returns (ports: seq<Port>)
    ensures Inspected(lib, ChosenMap(settings, bindings), ports)
    ensures settings.Some? && settings.value != map[] ==> ReportsAll(lib, settings.value, ports)
    ensures (settings.None? || settings.value == map[]) && bindings.Some? ==> ReportsAll(lib, bindings.value, ports)
    ensures (settings.None? || settings.value == map[]) && bindings.None? ==> ports == []
  {
    var portMap: PortMap<Addr> := map[];
    if settings.Some? && |settings.value| > 0 {
      portMap := settings.value;
    } else if bindings.Some? {
      portMap := bindings.value;
    }
    var collected := CollectPorts(lib, portMap);
    ghost var order :| Enumerates(order, portMap.Keys) && collected == Flatten(lib, portMap, order);
    ports := SortPorts(collected);
    SortedIsInspected(lib, portMap, order, ports);
    InspectedReportsAll(lib, portMap, ports);
    if portMap == map[] {
      EnumeratesLength(order, {});
    }
  }

  function UnderstoodAddr<Addr>(lib: NetLib<Addr>, hostIP: string): string {
    if hostIP == "" then ""
    else match lib.parseAddr(hostIP)
      case Some(addr) => lib.printAddr(addr)
      case None => ""
  }

  // The port as the engine understood it: protocol and address in the library's own spelling.
  function Understood<Addr>(lib: NetLib<Addr>, p: Port): Port {
    match ParseKey(lib, p)
    case Some(k) => Port(k.num, p.host, UnderstoodAddr(lib, p.hostIP), k.proto)
    case None => p
  }

  function Reported<Addr>(lib: NetLib<Addr>, ports: seq<Port>): seq<Port> {
    if ports == [] then []
    else
      var p := ports[|ports| - 1];
      Reported(lib, ports[..|ports| - 1]) + (if p.host == 0 then [] else [Understood(lib, p)])
  }

  // Flatten of a grouped map, read off the port list instead of the map.
  ghost function FlattenGroups<Addr>(lib: NetLib<Addr>, ports: seq<Port>, order: seq<PortKey>): seq<Port> {
    if order == [] then []
    else
      var k := order[|order| - 1];
      FlattenGroups(lib, ports, order[..|order| - 1]) + EmitAll(lib, k, BindingsFor(lib, ports, k))
  }

  lemma {:induction false} FlattenIsGroups<Addr>(lib: NetLib<Addr>, ports: seq<Port>, pm: PortMap<Addr>,
                                                 order: seq<PortKey>)
    requires Groups(lib, ports, pm) && forall k | k in order :: k in pm
    ensures Flatten(lib, pm, order) == FlattenGroups(lib, ports, order)
  {
    if order != [] {
      assert order[|order| - 1] in order;
      FlattenIsGroups(lib, ports, pm, order[..|order| - 1]);
    }
  }

  // Printing then parsing the host port gives it back, so an accepted port is emitted as understood.
  lemma EmitUnderstood<Addr>(lib: NetLib<Addr>, p: Port)
    requires Accepted(lib, p)
    ensures Emit(lib, ParseKey(lib, p).value, BindingOf(lib, p)) == if p.host == 0 then [] else [Understood(lib, p)]
  {
    ParseFormat(p.host);
    FormatDigits(p.host);
  }

  lemma EmitBindings<Addr>(lib: NetLib<Addr>, before: seq<Port>, p: Port, k: PortKey)
    requires Accepted(lib, p)
    ensures EmitAll(lib, k, BindingsFor(lib, before + [p], k)) ==
            EmitAll(lib, k, BindingsFor(lib, before, k)) +
            (if ParseKey(lib, p) == Some(k) && p.host != 0 then [Understood(lib, p)] else [])
  {
    BindingsSnoc(lib, before, p, k);
    if ParseKey(lib, p) == Some(k) {
      EmitAllSnoc(lib, k, BindingsFor(lib, before, k), BindingOf(lib, p));
      EmitUnderstood(lib, p);
    } else {
      assert BindingsFor(lib, before, k) + [] == BindingsFor(lib, before, k);
    }
  }

  lemma FlattenGroupsSnoc<Addr>(lib: NetLib<Addr>, ports: seq<Port>, rest: seq<PortKey>, k: PortKey)
    ensures FlattenGroups(lib, ports, rest + [k]) ==
            FlattenGroups(lib, ports, rest) + EmitAll(lib, k, BindingsFor(lib, ports, k))
  {
    assert (rest + [k])[..|rest + [k]| - 1] == rest;
  }

  lemma FlattenGroupsLast<Addr>(lib: NetLib<Addr>, before: seq<Port>, p: Port, key: PortKey, rest: seq<PortKey>,
                                k: PortKey)
    requires Accepted(lib, p) && ParseKey(lib, p) == Some(key)
    ensures multiset(FlattenGroups(lib, before, rest + [k])) ==
            multiset(FlattenGroups(lib, before, rest)) + multiset(EmitAll(lib, k, BindingsFor(lib, before, k)))
    ensures multiset(FlattenGroups(lib, before + [p], rest + [k])) ==
            multiset(FlattenGroups(lib, before + [p], rest)) + multiset(EmitAll(lib, k, BindingsFor(lib, before, k))) +
            multiset(if key == k && p.host != 0 then [Understood(lib, p)] else [])
  {
    EmitBindings(lib, before, p, k);
    FlattenGroupsSnoc(lib, before + [p], rest, k);
    FlattenGroupsSnoc(lib, before, rest, k);
  }

  // A port filed elsewhere, or without a host port, adds nothing to what these keys emit.
  lemma {:induction false} FlattenGroupsSame<Addr>(lib: NetLib<Addr>, before: seq<Port>, p: Port, key: PortKey,
                                                   order: seq<PortKey>)
    requires Accepted(lib, p) && ParseKey(lib, p) == Some(key)
    requires key !in order || p.host == 0
    ensures multiset(FlattenGroups(lib, before + [p], order)) == multiset(FlattenGroups(lib, before, order))
    decreases |order|
  {
    if order != [] {
      var n := |order| - 1;
      assert order == order[..n] + [order[n]];
      FlattenGroupsSame(lib, before, p, key, order[..n]);
      FlattenGroupsLast(lib, before, p, key, order[..n], order[n]);
    }
  }

  // Grouping and flattening one more port adds that port once, if it has a host port.
  lemma {:induction false} FlattenGroupsStep<Addr>(lib: NetLib<Addr>, before: seq<Port>, p: Port, key: PortKey,
                                                   order: seq<PortKey>)
    requires Accepted(lib, p) && ParseKey(lib, p) == Some(key) && p.host != 0
    requires key in order && forall i, j | 0 <= i < j < |order| :: order[i] != order[j]
    ensures multiset(FlattenGroups(lib, before + [p], order)) ==
            multiset(FlattenGroups(lib, before, order)) + multiset([Understood(lib, p)])
    decreases |order|
  {
    var n := |order| - 1;
    assert order == order[..n] + [order[n]];
    if order[n] == key {
      assert key !in order[..n];
      FlattenGroupsSame(lib, before, p, key, order[..n]);
    } else {
      FlattenGroupsStep(lib, before, p, key, order[..n]);
    }
    FlattenGroupsLast(lib, before, p, key, order[..n], order[n]);
  }

  lemma {:induction false} FlattenNothing<Addr>(lib: NetLib<Addr>, order: seq<PortKey>)
    ensures FlattenGroups(lib, [], order) == []
  {
    if order != [] {
      FlattenNothing(lib, order[..|order| - 1]);
    }
  }

  lemma {:induction false} FlattenGroupsReports<Addr>(lib: NetLib<Addr>, ports: seq<Port>, order: seq<PortKey>)
    requires AllAccepted(lib, ports)
    requires forall i, j | 0 <= i < j < |order| :: order[i] != order[j]
    requires forall p | p in ports :: ParseKey(lib, p).value in order
    ensures multiset(FlattenGroups(lib, ports, order)) == multiset(Reported(lib, ports))
  {
    if ports == [] {
      FlattenNothing(lib, order);
    } else {
      var before, p := ports[..|ports| - 1], ports[|ports| - 1];
      assert ports == before + [p];
      assert p in ports;
      FlattenGroupsReports(lib, before, order);
      if p.host == 0 {
        FlattenGroupsSame(lib, before, p, ParseKey(lib, p).value, order);
      } else {
        FlattenGroupsStep(lib, before, p, ParseKey(lib, p).value, order);
      }
    }
  }

  // Converting any accepted list and inspecting the stopped container gives back exactly the multiset of
  // ports with a host port, as the engine understood them, sorted.
  lemma ConvertInspectRoundTrip<Addr>(lib: NetLib<Addr>, ports: seq<Port>, pm: PortMap<Addr>, out: seq<Port>)
    requires AllAccepted(lib, ports) && Groups(lib, ports, pm) && Inspected(lib, pm, out)
    ensures SortedPorts(out, Reported(lib, ports))
  {
    var order := SomeOrder(pm.Keys);
    FlattenIsGroups(lib, ports, pm, order);
    forall p | p in ports ensures ParseKey(lib, p).value in order {
      assert FiledUnder(lib, ports, ParseKey(lib, p).value);
    }
    FlattenGroupsReports(lib, ports, order);
  }

  // A port whose protocol and address are already spelled the way the libraries print them.
  ghost predicate Canonical<Addr>(lib: NetLib<Addr>, p: Port) {
    && ParseKey(lib, p) == Some(PortKey(p.container, Protocol(p)))
    && (p.hostIP != "" ==> lib.parseAddr(p.hostIP).Some? && lib.printAddr(lib.parseAddr(p.hostIP).value) == p.hostIP)
  }

  function Defaulted(p: Port): Port {
    p.(protocol := Protocol(p))
  }

  function WithHostPort(ports: seq<Port>): seq<Port> {
    if ports == [] then []
    else
      var p := ports[|ports| - 1];
      WithHostPort(ports[..|ports| - 1]) + (if p.host == 0 then [] else [Defaulted(p)])
  }

  lemma {:induction false} ReportedCanonical<Addr>(lib: NetLib<Addr>, ports: seq<Port>)
    requires forall p | p in ports && p.host != 0 :: Canonical(lib, p)
    ensures Reported(lib, ports) == WithHostPort(ports)
  {
    if ports != [] {
      assert ports[|ports| - 1] in ports;
      ReportedCanonical(lib, ports[..|ports| - 1]);
    }
  }

  // On canonical input the round trip only fills in the protocol and drops ports without a host port.
  lemma CanonicalRoundTrip<Addr>(lib: NetLib<Addr>, ports: seq<Port>, pm: PortMap<Addr>, out: seq<Port>)
    requires forall p | p in ports :: Canonical(lib, p)
    requires Groups(lib, ports, pm) && Inspected(lib, pm, out)
    ensures SortedPorts(out, WithHostPort(ports))
  {
    ReportedCanonical(lib, ports);
    ConvertInspectRoundTrip(lib, ports, pm, out);
  }

  // The ports with a host port.
  ghost function Hosted(ports: seq<Port>): set<nat> {
    set i: nat | i < |ports| && ports[i].host != 0
  }

  lemma HostedSnoc(ports: seq<Port>, p: Port)
    ensures Hosted(ports + [p]) == Hosted(ports) + (if p.host != 0 then {|ports|} else {})
  {
  }

  // q is p as given, with an empty protocol read as "tcp".
  ghost predicate AsGiven(q: Port, p: Port) {
    && q.container == p.container && q.host == p.host && q.hostIP == p.hostIP
    && q.protocol == if p.protocol == "" then "tcp" else p.protocol
  }

  // unsorted is every port that has a host port, in list order and as it was given.
  ghost predicate Kept(ports: seq<Port>, idx: seq<nat>, unsorted: seq<Port>) {
    && Lists(idx, Hosted(ports)) && |idx| == |unsorted|
    && forall i | 0 <= i < |idx| :: idx[i] < |ports| && AsGiven(unsorted[i], ports[idx[i]])
  }

  lemma {:induction false} WithHostPortAt(ports: seq<Port>) returns (idx: seq<nat>)
    ensures Kept(ports, idx, WithHostPort(ports))
  {
    if ports == [] {
      idx := [];
    } else {
      var before, p := ports[..|ports| - 1], ports[|ports| - 1];
      assert ports == before + [p];
      idx := WithHostPortAt(before);
      HostedSnoc(before, p);
      if p.host != 0 {
        ListsSnoc(idx, Hosted(before), |before|);
        idx := idx + [|before|];
      }
    }
  }

  ghost predicate GivesBack(ports: seq<Port>, out: seq<Port>) {
    exists idx, unsorted :: Kept(ports, idx, unsorted) && SortedPorts(out, unsorted)
  }

  // The round trip said port by port.
  lemma CanonicalPortsComeBack<Addr>(lib: NetLib<Addr>, ports: seq<Port>, pm: PortMap<Addr>, out: seq<Port>)
    requires forall p | p in ports :: Canonical(lib, p)
    requires Groups(lib, ports, pm) && Inspected(lib, pm, out)
    ensures GivesBack(ports, out)
  {
    CanonicalRoundTrip(lib, ports, pm, out);
    var idx := WithHostPortAt(ports);
  }

  // The libraries parse back what they print.
  ghost predicate ParsesOwnPrint<Addr(!new)>(lib: NetLib<Addr>) {
    && (forall a :: lib.printAddr(a) != "" && lib.parseAddr(lib.printAddr(a)) == Some(a))
    && (forall text | lib.parsePort(text).Some? ::
          var k := lib.parsePort(text).value;
          k.proto != "" && lib.parsePort(PortText(k.num, k.proto)) == lib.parsePort(text))
  }

  // Then the spelling the driver reports is one it reports unchanged.
  lemma UnderstoodTwice<Addr(!new)>(lib: NetLib<Addr>, p: Port)
    requires ParsesOwnPrint(lib) && Accepted(lib, p)
    ensures Understood(lib, Understood(lib, p)) == Understood(lib, p)
  {
  }

  lemma CanonicalIffUnderstood<Addr>(lib: NetLib<Addr>, p: Port)
    requires Accepted(lib, p)
    ensures Canonical(lib, p) <==> Understood(lib, p) == Defaulted(p)
    ensures Understood(lib, Defaulted(p)) == Understood(lib, p)
  {
  }

  lemma {:induction false} DefaultedListed(ports: seq<Port>, p: Port)
    requires p in ports && p.host != 0
    ensures Defaulted(p) in WithHostPort(ports)
  {
    var n := |ports| - 1;
    if ports[n] != p {
      assert ports == ports[..n] + [ports[n]];
      DefaultedListed(ports[..n], p);
    }
  }

  lemma {:induction false} ReportedFrom<Addr>(lib: NetLib<Addr>, ports: seq<Port>, x: Port) returns (q: Port)
    requires x in Reported(lib, ports)
    ensures q in ports && x == Understood(lib, q)
  {
    var n := |ports| - 1;
    if x in Reported(lib, ports[..n]) {
      q := ReportedFrom(lib, ports[..n], x);
    } else {
      q := ports[n];
    }
  }

  lemma SameListsIffCanonical<Addr(!new)>(lib: NetLib<Addr>, ports: seq<Port>)
    requires ParsesOwnPrint(lib) && AllAccepted(lib, ports)
    ensures multiset(WithHostPort(ports)) == multiset(Reported(lib, ports)) <==>
            forall p | p in ports && p.host != 0 :: Canonical(lib, p)
  {
    if multiset(WithHostPort(ports)) == multiset(Reported(lib, ports)) {
      forall p | p in ports && p.host != 0 ensures Canonical(lib, p) {
        DefaultedListed(ports, p);
        assert Defaulted(p) in multiset(WithHostPort(ports));
        assert Defaulted(p) in Reported(lib, ports);
        var q := ReportedFrom(lib, ports, Defaulted(p));
        UnderstoodTwice(lib, q);
        CanonicalIffUnderstood(lib, p);
      }
    }
    if forall p | p in ports && p.host != 0 :: Canonical(lib, p) {
      ReportedCanonical(lib, ports);
    }
  }

  // With such libraries the round trip changes no more than that exactly when every port with a host port is canonical.
  lemma RoundTripIffCanonical<Addr(!new)>(lib: NetLib<Addr>, ports: seq<Port>, pm: PortMap<Addr>, out: seq<Port>)
    requires ParsesOwnPrint(lib) && AllAccepted(lib, ports)
    requires Groups(lib, ports, pm) && Inspected(lib, pm, out)
    ensures SortedPorts(out, WithHostPort(ports)) <==> forall p | p in ports && p.host != 0 :: Canonical(lib, p)
  {
    ConvertInspectRoundTrip(lib, ports, pm, out);
    SameListsIffCanonical(lib, ports);
  }

  // Two inspections of one map, whatever their iteration orders and however their unstable sorts break ties,
  // list the same keys in the same order, and the same ports if no two different ports share a key.
  lemma InspectOrderIndependent<Addr>(lib: NetLib<Addr>, pm: PortMap<Addr>, out1: seq<Port>, out2: seq<Port>)
    requires Inspected(lib, pm, out1) && Inspected(lib, pm, out2)
    ensures Keys(out1) == Keys(out2)
    ensures DistinctKeys(out1) ==> out1 == out2
  {
    var order := SomeOrder(pm.Keys);
    assert SortedPorts(out1, Flatten(lib, pm, order)) && SortedPorts(out2, Flatten(lib, pm, order));
    assert SortedPorts(out1, out1) && SortedPorts(out2, out1);
    SortedKeysAgree(out1, out2, out1, out1);
  }
}
