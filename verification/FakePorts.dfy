/** Host ports under concurrent creates: what the k-th allocation is, when allocations differ, and what port
    list every container ends up with, for every interleaving. */
module FakePorts {
  import opened Outcomes
  import opened Decimal
  import opened Ports
  import opened FakeStore
  import opened FakeSystem
  import opened FakeInvariant
  import opened FakeHistory

  ghost predicate DrawsInv(y: System) {
    && y.store.ephemeralPort == Advance(32767, |y.draws|)
    && forall k | 0 <= k < |y.draws| :: y.draws[k].host == Low16(Advance(32767, k + 1))
  }

  lemma OpKeepsCounters(s: Store, op: Op)
    requires Refs(s)
    ensures ApplyOp(s, op).0.ephemeralPort == s.ephemeralPort
  {
  }

  lemma DrawsStep(y: System, l: Label)
    requires SystemRefs(y) && DrawsInv(y)
    ensures DrawsInv(Apply(y, l))
  {
    match l
    case ResolvePort(c) => AdvanceStep(32767, |y.draws|);
    case Locked(op) => OpKeepsCounters(y.store, op);
    case Insert(c, ports) =>
    case _ =>
  }

  lemma {:induction false} DrawsReachable(run: seq<Label>)
    ensures DrawsInv(Exec(run))
  {
    if run != [] {
      DrawsReachable(run[..|run| - 1]);
      DrawsStep(Exec(run[..|run| - 1]), run[|run| - 1]);
    }
  }

  lemma DrawValue(y: System, k: nat)
    requires DrawsInv(y) && k < |y.draws|
    ensures y.draws[k].host == (32768 + k) % TWO16
  {
    Low16OfAdvance(32767, k + 1);
  }

  lemma SameResidueIff(a: nat, b: nat)
    requires a <= b
    ensures (32768 + a) % TWO16 == (32768 + b) % TWO16 <==> (b - a) % TWO16 == 0
  {
  }

  lemma SmallMultiple(d: nat)
    ensures d < TWO16 ==> d % TWO16 == d
  {
  }

  lemma DrawsCollide(y: System, j: nat, k: nat)
    requires DrawsInv(y) && j <= k < |y.draws|
    ensures y.draws[j].host == y.draws[k].host <==> (k - j) % TWO16 == 0
    ensures 0 < k - j < TWO16 ==> y.draws[j].host != y.draws[k].host
  {
    DrawValue(y, j);
    DrawValue(y, k);
    SameResidueIff(j, k);
    SmallMultiple(k - j);
  }

  // Over any run and any interleaving of creates, the (k+1)-st ephemeral allocation is (32768 + k) mod 65536.
  lemma DrawIs(run: seq<Label>, k: nat)
    requires k < |Exec(run).draws|
    ensures Exec(run).draws[k].host == (32768 + k) % TWO16
  {
    DrawsReachable(run);
    DrawValue(Exec(run), k);
  }

  // Two allocations get the same host port exactly when their positions differ by a multiple of 65536; in
  // particular any 65536 consecutive ones are pairwise distinct.
  lemma DrawsCollideIff(run: seq<Label>, j: nat, k: nat)
    requires j <= k < |Exec(run).draws|
    ensures Exec(run).draws[j].host == Exec(run).draws[k].host <==> (k - j) % TWO16 == 0
    ensures 0 < k - j < TWO16 ==> Exec(run).draws[j].host != Exec(run).draws[k].host
  {
    DrawsReachable(run);
    DrawsCollide(Exec(run), j, k);
  }

  lemma HalfTurn(k: nat)
    ensures k < 32768 ==> (32768 + k) % TWO16 == 32768 + k
    ensures (32768 + k) % TWO16 == 0 <==> k % TWO16 == 32768
  {
  }

  // The first 32768 allocations lie in the ephemeral range; the promise of a usable, nonzero port fails
  // exactly at the 32769th allocation and every 65536th one after it.
  lemma DrawRange(run: seq<Label>, k: nat)
    requires k < |Exec(run).draws|
    ensures k < 32768 ==> Exec(run).draws[k].host >= 32768
    ensures Exec(run).draws[k].host == 0 <==> k % TWO16 == 32768
  {
    DrawIs(run, k);
    HalfTurn(k);
  }

  // The ports drawn on behalf of one container, in the order drawn.
  ghost function HostsOf(draws: seq<Draw>, id: ContainerID): seq<uint16> {
    if draws == [] then []
    else
      var n := |draws| - 1;
      HostsOf(draws[..n], id) + (if draws[n].id == id then [draws[n].host] else [])
  }

  lemma HostsOfSnoc(draws: seq<Draw>, d: Draw, id: ContainerID)
    ensures HostsOf(draws + [d], id) == HostsOf(draws, id) + (if d.id == id then [d.host] else [])
  {
    assert (draws + [d])[..|draws + [d]| - 1] == draws;
  }

  lemma {:induction false} NoHosts(draws: seq<Draw>, id: ContainerID)
    requires forall d | d in draws :: d.id != id
    ensures HostsOf(draws, id) == []
  {
    if draws != [] {
      assert draws[|draws| - 1] in draws;
      NoHosts(draws[..|draws| - 1], id);
    }
  }

  // out resolves ports with exactly the hosts drawn for id.
  ghost predicate ResolvedWith(draws: seq<Draw>, id: ContainerID, ports: seq<Port>, out: seq<Port>) {
    |HostsOf(draws, id)| == ZeroHosts(ports) && out == Resolved(ports, HostsOf(draws, id))
  }

  ghost predicate CreatorResolved(y: System, k: Creator) {
    k.next <= |k.spec.ports| && ResolvedWith(y.draws, k.id, k.spec.ports[..k.next], k.resolved)
  }

  ghost predicate ObjectResolved(y: System, o: Obj) {
    && |HostsOf(y.draws, o.id)| == ZeroHosts(o.spec.ports)
    && SortedPorts(o.ports, Resolved(o.spec.ports, HostsOf(y.draws, o.id)))
  }

  ghost predicate PortsInv(y: System) {
    && (forall d | d in y.draws :: IssuedBy(d.id, y.issued))
    && (forall c | c in y.creators :: CreatorResolved(y, y.creators[c]))
    && (forall o | 0 <= o < |y.store.objs| :: ObjectResolved(y, y.store.objs[o]))
  }

  lemma ResolvedWithDraw(draws: seq<Draw>, id: ContainerID, done: seq<Port>, out: seq<Port>, p: Port, host: uint16)
    requires ResolvedWith(draws, id, done, out) && p.host == 0
    ensures ResolvedWith(draws + [Draw(id, host)], id, done + [p], out + [Entry(p, host)])
  {
    HostsOfSnoc(draws, Draw(id, host), id);
    ResolvedDrawn(done, p, HostsOf(draws, id), host);
  }

  lemma ResolvedWithKept(draws: seq<Draw>, id: ContainerID, done: seq<Port>, out: seq<Port>, p: Port)
    requires ResolvedWith(draws, id, done, out) && p.host != 0
    ensures ResolvedWith(draws, id, done + [p], out + [Entry(p, p.host)])
  {
    ResolvedKept(done, p, HostsOf(draws, id));
  }

  lemma ResolveOne(y: System, caller: Caller)
    requires caller in y.creators && CreatorResolved(y, y.creators[caller])
    requires y.creators[caller].next < |y.creators[caller].spec.ports|
    ensures var r := ApplyResolvePort(y, caller); caller in r.creators && CreatorResolved(r, r.creators[caller])
  {
    var k := y.creators[caller];
    var p, done := k.spec.ports[k.next], k.spec.ports[..k.next];
    assert k.spec.ports[..k.next + 1] == done + [p];
    if p.host == 0 {
      ResolvedWithDraw(y.draws, k.id, done, k.resolved, p, Low16(Add1(y.store.ephemeralPort)));
    } else {
      ResolvedWithKept(y.draws, k.id, done, k.resolved, p);
    }
  }

  // A draw for one container is none for another.
  lemma ResolveOthers(y: System, caller: Caller, id: ContainerID)
    requires caller in y.creators && y.creators[caller].id != id
    ensures HostsOf(ApplyResolvePort(y, caller).draws, id) == HostsOf(y.draws, id)
  {
    var k := y.creators[caller];
    if k.next < |k.spec.ports| {
      HostsOfSnoc(y.draws, Draw(k.id, Low16(Add1(y.store.ephemeralPort))), id);
    }
  }

  lemma ResolvedElsewhere(y: System, caller: Caller)
    requires Inv(y) && PortsInv(y) && caller in y.creators
    ensures var r := ApplyResolvePort(y, caller);
            && (forall c | c in y.creators && c != caller :: CreatorResolved(r, y.creators[c]))
            && (forall o | 0 <= o < |y.store.objs| :: ObjectResolved(r, y.store.objs[o]))
  {
    var r := ApplyResolvePort(y, caller);
    forall c | c in y.creators && c != caller ensures CreatorResolved(r, y.creators[c]) {
      ResolveOthers(y, caller, y.creators[c].id);
      assert CreatorResolved(y, y.creators[c]);
    }
    forall o | 0 <= o < |y.store.objs| ensures ObjectResolved(r, y.store.objs[o]) {
      ResolveOthers(y, caller, y.store.objs[o].id);
      assert ObjectResolved(y, y.store.objs[o]);
    }
  }

  lemma DrawnByIssued(y: System, caller: Caller)
    requires CreatorsInv(y) && forall d | d in y.draws :: IssuedBy(d.id, y.issued)
    ensures forall d | d in ApplyResolvePort(y, caller).draws :: IssuedBy(d.id, y.issued)
  {
  }

  lemma PortsInvParts(r: System, caller: Caller)
    requires forall d | d in r.draws :: IssuedBy(d.id, r.issued)
    requires forall c | c in r.creators && c != caller :: CreatorResolved(r, r.creators[c])
    requires caller in r.creators ==> CreatorResolved(r, r.creators[caller])
    requires forall o | 0 <= o < |r.store.objs| :: ObjectResolved(r, r.store.objs[o])
    ensures PortsInv(r)
  {
  }

  lemma ResolveKeepsOthers(y: System, caller: Caller)
    ensures var r := ApplyResolvePort(y, caller);
            && r.store.objs == y.store.objs && r.issued == y.issued && r.creators.Keys == y.creators.Keys
            && forall c | c in y.creators && c != caller :: r.creators[c] == y.creators[c]
  {
  }

  lemma ResolvePortsInv(y: System, caller: Caller)
    requires Inv(y) && PortsInv(y)
    ensures PortsInv(ApplyResolvePort(y, caller))
  {
    if caller in y.creators && y.creators[caller].next < |y.creators[caller].spec.ports| {
      ResolveOne(y, caller);
      ResolvedElsewhere(y, caller);
      DrawnByIssued(y, caller);
      ResolveKeepsOthers(y, caller);
      PortsInvParts(ApplyResolvePort(y, caller), caller);
    }
  }

  lemma NewCreatorResolved(y: System, k: Creator)
    requires (forall d | d in y.draws :: IssuedBy(d.id, y.issued)) && k.id == IdOf(y.issued + 1)
    requires k.next == 0 && k.resolved == []
    ensures CreatorResolved(y, k)
  {
    forall d | d in y.draws ensures d.id != k.id {
      NextIdFresh(y.issued);
    }
    NoHosts(y.draws, k.id);
    assert k.spec.ports[..0] == [];
  }

  lemma DrawsStayIssued(draws: seq<Draw>, m: nat, n: nat)
    requires m <= n && forall d | d in draws :: IssuedBy(d.id, m)
    ensures forall d | d in draws :: IssuedBy(d.id, n)
  {
    forall d | d in draws ensures IssuedBy(d.id, n) {
      IssuedMonotone(d.id, m, n);
    }
  }

  lemma ReservePortsInv(y: System, caller: Caller, spec: Spec)
    requires Inv(y) && PortsInv(y) && y.issued + 1 < TWO64
    ensures PortsInv(ApplyReserve(y, caller, spec))
  {
    var r := ApplyReserve(y, caller, spec);
    if caller !in y.creators && spec.image != "" {
      NewCreatorResolved(y, r.creators[caller]);
      DrawsStayIssued(y.draws, y.issued, r.issued);
      forall c | c in r.creators ensures CreatorResolved(r, r.creators[c]) {
        assert c != caller ==> CreatorResolved(y, y.creators[c]);
      }
      forall o | 0 <= o < |r.store.objs| ensures ObjectResolved(r, r.store.objs[o]) {
        assert ObjectResolved(y, y.store.objs[o]);
      }
    }
  }

  lemma InsertedResolved(y: System, caller: Caller, ports: seq<Port>)
    requires Refs(y.store) && CanInsert(y, caller, ports) && CreatorResolved(y, y.creators[caller])
    ensures var k := y.creators[caller]; ObjectResolved(y, Obj(k.id, k.spec, ports, Created, ""))
  {
    var k := y.creators[caller];
    assert k.spec.ports[..k.next] == k.spec.ports;
  }

  lemma InsertPortsInv(y: System, caller: Caller, ports: seq<Port>)
    requires Inv(y) && PortsInv(y)
    ensures PortsInv(ApplyInsert(y, caller, ports))
  {
    if CanInsert(y, caller, ports) {
      InsertedResolved(y, caller, ports);
      var r := ApplyInsert(y, caller, ports);
      forall c | c in r.creators ensures CreatorResolved(r, r.creators[c]) {
        assert CreatorResolved(y, y.creators[c]);
      }
      forall o | 0 <= o < |r.store.objs| ensures ObjectResolved(r, r.store.objs[o]) {
        assert o < |y.store.objs| ==> ObjectResolved(y, y.store.objs[o]);
      }
    }
  }

  lemma LockedPortsInv(y: System, op: Op)
    requires Inv(y) && PortsInv(y)
    ensures PortsInv(Apply(y, Locked(op)))
  {
    OpKeepsNames(y.store, op);
    var r := Apply(y, Locked(op));
    forall o | 0 <= o < |r.store.objs| ensures ObjectResolved(r, r.store.objs[o]) {
      assert ObjectResolved(y, y.store.objs[o]);
    }
  }

  lemma PortsStep(y: System, l: Label)
    requires Inv(y) && PortsInv(y) && Apply(y, l).issued < TWO64
    ensures PortsInv(Apply(y, l))
  {
    match l
    case Reserve(c, spec) =>
      if Apply(y, l) != y {
        ReservePortsInv(y, c, spec);
      }
    case ResolvePort(c) => ResolvePortsInv(y, c);
    case Insert(c, ports) => InsertPortsInv(y, c, ports);
    case Locked(op) => LockedPortsInv(y, op);
    case Waiting(c, move) =>
  }

  lemma {:induction false} PortsReachable(run: seq<Label>)
    requires Exec(run).issued < TWO64
    ensures PortsInv(Exec(run))
  {
    if run != [] {
      var before, l := run[..|run| - 1], run[|run| - 1];
      assert run == before + [l];
      IssuedOnlyGrows(before, l);
      LastStep(before, l);
      ReachableInv(before);
      PortsReachable(before);
      PortsStep(Exec(before), l);
    }
  }

  // Whatever creates ran at the same time, the port list of every container is, in ascending order, its spec filled in
  // entry by entry: explicit hosts kept, zero hosts filled in input order with the allocations made for this
  // container, of which there are exactly as many as zero hosts.
  lemma EveryContainerResolved(run: seq<Label>, o: nat)
    requires Exec(run).issued < TWO64 && o < |Exec(run).store.objs|
    ensures var y := Exec(run); var c := y.store.objs[o];
            exists filled :: Fills(c.spec.ports, HostsOf(y.draws, c.id), filled) && SortedPorts(c.ports, filled)
    ensures ObjectResolved(Exec(run), Exec(run).store.objs[o])
  {
    PortsReachable(run);
    var c := Exec(run).store.objs[o];
    ResolvedFills(c.spec.ports, HostsOf(Exec(run).draws, c.id));
  }

  // The label begins a create call that asks for spec and is given this id, the next number in decimal.
  ghost predicate Reserves(y: System, l: Label, r: System, id: ContainerID, spec: Spec) {
    && l.Reserve? && l.spec == spec && spec.image != ""
    && r.issued == y.issued + 1 && id == "fake-" + Format(r.issued)
  }

  ghost predicate ReservedAt(run: seq<Label>, j: nat, id: ContainerID, spec: Spec) {
    j < |run| && Reserves(Exec(run[..j]), run[j], Exec(run[..j + 1]), id, spec)
  }

  ghost predicate Requested(run: seq<Label>, id: ContainerID, spec: Spec) {
    exists j: nat :: ReservedAt(run, j, id, spec)
  }

  lemma RequestedExtends(run: seq<Label>, l: Label, id: ContainerID, spec: Spec)
    requires Requested(run, id, spec)
    ensures Requested(run + [l], id, spec)
  {
    var j: nat :| ReservedAt(run, j, id, spec);
    var next := run + [l];
    assert next[..j] == run[..j] && next[..j + 1] == run[..j + 1] && next[j] == run[j];
    assert ReservedAt(next, j, id, spec);
  }

  lemma ReservedLast(run: seq<Label>, l: Label, id: ContainerID, spec: Spec)
    ensures ReservedAt(run + [l], |run|, id, spec) <==> Reserves(Exec(run), l, Exec(run + [l]), id, spec)
  {
    assert (run + [l])[..|run|] == run && (run + [l])[..|run| + 1] == run + [l];
  }

  // Where the ids and specs of a state come from: from creators and records of the state before, or a new request.
  ghost predicate Known(y: System, id: ContainerID, spec: Spec) {
    || (exists c :: c in y.creators && y.creators[c].id == id && y.creators[c].spec == spec)
    || (exists o :: 0 <= o < |y.store.objs| && y.store.objs[o].id == id && y.store.objs[o].spec == spec)
  }

  lemma OldRequest(y: System, l: Label, id: ContainerID, spec: Spec)
    requires SystemRefs(y) && Known(Apply(y, l), id, spec) && !l.Reserve?
    ensures Known(y, id, spec)
  {
    match l
    case ResolvePort(c) => ResolvePortKeepsNames(y, c);
    case Insert(c, ports) =>
    case Locked(op) => OpKeepsNames(y.store, op);
    case Waiting(c, move) =>
  }

  lemma ReserveRequest(y: System, caller: Caller, spec: Spec, id: ContainerID, s: Spec)
    requires CreatorsInv(y) && y.issued + 1 < TWO64
    requires Known(ApplyReserve(y, caller, spec), id, s) && !Known(y, id, s)
    ensures Reserves(y, Reserve(caller, spec), ApplyReserve(y, caller, spec), id, s)
  {
  }

  lemma {:induction false} KnownIsRequested(run: seq<Label>, id: ContainerID, spec: Spec)
    requires Exec(run).issued < TWO64 && Known(Exec(run), id, spec)
    ensures Requested(run, id, spec)
  {
    if run != [] {
      var before, l := LastStepOf(run);
      if Known(Exec(before), id, spec) {
        KnownIsRequested(before, id, spec);
        RequestedExtends(before, l, id, spec);
      } else if l.Reserve? {
        ReserveRequest(Exec(before), l.caller, l.spec, id, spec);
        ReservedLast(before, l, id, spec);
      } else {
        OldRequest(Exec(before), l, id, spec);
      }
    }
  }

  // Every container, live or removed, carries the spec that some create call asked for and the number that call drew.
  lemma EveryContainerRequested(run: seq<Label>, o: nat)
    requires Exec(run).issued < TWO64 && o < |Exec(run).store.objs|
    ensures Requested(run, Exec(run).store.objs[o].id, Exec(run).store.objs[o].spec)
  {
    KnownIsRequested(run, Exec(run).store.objs[o].id, Exec(run).store.objs[o].spec);
  }

  lemma {:induction false} HostHasDraw(draws: seq<Draw>, id: ContainerID, host: uint16) returns (k: nat)
    requires host in HostsOf(draws, id)
    ensures k < |draws| && draws[k] == Draw(id, host)
  {
    var n := |draws| - 1;
    if draws[n] == Draw(id, host) {
      k := n;
    } else {
      k := HostHasDraw(draws[..n], id, host);
    }
  }

  // The port list names no bound host port for some entry.
  ghost predicate ReportsZero(ps: seq<Port>) {
    exists p :: p in ps && p.host == 0
  }

  lemma ReportsZeroSnoc(ps: seq<Port>, p: Port)
    ensures ReportsZero(ps + [p]) <==> ReportsZero(ps) || p.host == 0
  {
    assert p in ps + [p];
    if q :| q in ps && q.host == 0 {
      assert q in ps + [p];
    }
  }

  // Resolution keeps explicit hosts, which are not zero, so a zero can only come from an allocation.
  lemma {:induction false} ResolvedZeroIff(ports: seq<Port>, hosts: seq<uint16>)
    requires |hosts| == ZeroHosts(ports)
    ensures ReportsZero(Resolved(ports, hosts)) <==> 0 in hosts
  {
    if ports != [] {
      var n := |ports| - 1;
      if ports[n].host == 0 {
        var m := |hosts| - 1;
        ResolvedZeroIff(ports[..n], hosts[..m]);
        ReportsZeroSnoc(Resolved(ports[..n], hosts[..m]), Entry(ports[n], hosts[m]));
        assert hosts == hosts[..m] + [hosts[m]];
      } else {
        ResolvedZeroIff(ports[..n], hosts);
        ReportsZeroSnoc(Resolved(ports[..n], hosts), Entry(ports[n], ports[n].host));
      }
    }
  }

  lemma {:induction false} DrawGivesHost(draws: seq<Draw>, k: nat)
    requires k < |draws|
    ensures draws[k].host in HostsOf(draws, draws[k].id)
  {
    var n := |draws| - 1;
    if k < n {
      DrawGivesHost(draws[..n], k);
    }
  }

  lemma ZeroHostDrawn(y: System, id: ContainerID)
    requires DrawsInv(y)
    ensures 0 in HostsOf(y.draws, id) <==> exists k :: 0 <= k < |y.draws| && y.draws[k].id == id && k % TWO16 == 32768
  {
    forall k | 0 <= k < |y.draws| ensures y.draws[k].host == 0 <==> k % TWO16 == 32768 {
      DrawValue(y, k);
      HalfTurn(k);
    }
    if 0 in HostsOf(y.draws, id) {
      var k := HostHasDraw(y.draws, id, 0);
      assert y.draws[k].id == id && k % TWO16 == 32768;
    }
    if k :| 0 <= k < |y.draws| && y.draws[k].id == id && k % TWO16 == 32768 {
      DrawGivesHost(y.draws, k);
    }
  }

  lemma PermutationReportsZero(a: seq<Port>, b: seq<Port>)
    requires multiset(a) == multiset(b)
    ensures ReportsZero(a) <==> ReportsZero(b)
  {
    forall p ensures p in a <==> p in b {
      assert p in a <==> p in multiset(a);
      assert p in b <==> p in multiset(b);
    }
  }

  lemma ResolvedReportsZero(y: System, o: Obj)
    requires DrawsInv(y) && ObjectResolved(y, o)
    ensures ReportsZero(o.ports) <==> exists k :: 0 <= k < |y.draws| && y.draws[k].id == o.id && k % TWO16 == 32768
  {
    var hosts := HostsOf(y.draws, o.id);
    PermutationReportsZero(o.ports, Resolved(o.spec.ports, hosts));
    ResolvedZeroIff(o.spec.ports, hosts);
    ZeroHostDrawn(y, o.id);
  }

  // Port.Host is documented as the actual bound port. A container reports 0 instead exactly when one of its
  // allocations was the 32769th or a 65536th one after it.
  lemma ZeroPortReportedIff(run: seq<Label>, o: nat)
    requires Exec(run).issued < TWO64 && o < |Exec(run).store.objs|
    ensures var y := Exec(run);
            ReportsZero(y.store.objs[o].ports) <==>
            exists k :: 0 <= k < |y.draws| && y.draws[k].id == y.store.objs[o].id && k % TWO16 == 32768
  {
    DrawsReachable(run);
    EveryContainerResolved(run, o);
    ResolvedReportsZero(Exec(run), Exec(run).store.objs[o]);
  }

  lemma NoSharedDraw(y: System, a: ContainerID, b: ContainerID, host: uint16)
    requires DrawsInv(y) && |y.draws| <= TWO16 && host in HostsOf(y.draws, a) && host in HostsOf(y.draws, b)
    ensures a == b
  {
    var j := HostHasDraw(y.draws, a, host);
    var k := HostHasDraw(y.draws, b, host);
    if j < k {
      DrawsCollide(y, j, k);
    } else if k < j {
      DrawsCollide(y, k, j);
    }
  }

  // Up to 65536 allocations, no ephemeral host port is given to two containers.
  lemma NoSharedEphemeralPort(run: seq<Label>, a: ContainerID, b: ContainerID, host: uint16)
    requires |Exec(run).draws| <= TWO16
    requires host in HostsOf(Exec(run).draws, a) && host in HostsOf(Exec(run).draws, b)
    ensures a == b
  {
    DrawsReachable(run);
    NoSharedDraw(Exec(run), a, b, host);
  }

  // n iterations of one caller's resolution loop, with nobody in between.
  ghost function ResolveAlone(y: System, caller: Caller, n: nat): System {
    if n == 0 then y else ApplyResolvePort(ResolveAlone(y, caller, n - 1), caller)
  }

  // After n iterations that began with the port counter at c, r differs from s in the port counter only and the caller
  // has resolved its first n entries from consecutive draws.
  ghost predicate ResolvedAlone(s: Store, r: System, caller: Caller, spec: Spec, id: ContainerID, n: nat) {
    && n <= |spec.ports| && caller in r.creators
    && var z := ZeroHosts(spec.ports[..n]);
    && r.creators[caller] == Creator(id, spec, n, ResolvedAfter(s.ephemeralPort, spec.ports[..n]))
    && r.store == s.(ephemeralPort := Advance(s.ephemeralPort, z))
  }

  // The values one more entry brings.
  lemma OneMoreEntry(ports: seq<Port>, n: nat, c: uint64)
    requires n < |ports|
    ensures var p, z := ports[n], ZeroHosts(ports[..n]);
            var host := if p.host == 0 then Low16(Add1(Advance(c, z))) else p.host;
            && ZeroHosts(ports[..n + 1]) == z + (if p.host == 0 then 1 else 0)
            && Resolved(ports[..n + 1], Draws(c, ZeroHosts(ports[..n + 1]))) ==
                Resolved(ports[..n], Draws(c, z)) + [Entry(p, host)]
            && Advance(c, ZeroHosts(ports[..n + 1])) == if p.host == 0 then Add1(Advance(c, z)) else Advance(c, z)
  {
    var done, p := ports[..n], ports[n];
    assert ports[..n + 1] == done + [p];
    ZeroHostsSnoc(done, p);
    AdvanceStep(c, ZeroHosts(done));
    if p.host == 0 {
      ResolvedDrawn(done, p, Draws(c, ZeroHosts(done)), Low16(Advance(c, ZeroHosts(done) + 1)));
    } else {
      ResolvedKept(done, p, Draws(c, ZeroHosts(done)));
    }
  }

  lemma ResolvedAloneStep(s: Store, r: System, caller: Caller, spec: Spec, id: ContainerID, n: nat)
    requires n > 0 && ResolvedAlone(s, r, caller, spec, id, n - 1) && n <= |spec.ports|
    ensures ResolvedAlone(s, ApplyResolvePort(r, caller), caller, spec, id, n)
  {
    OneMoreEntry(spec.ports, n - 1, s.ephemeralPort);
  }

  lemma NothingResolved(y: System, caller: Caller, spec: Spec, id: ContainerID)
    requires caller in y.creators && y.creators[caller] == Creator(id, spec, 0, [])
    ensures ResolvedAlone(y.store, y, caller, spec, id, 0)
  {
    assert spec.ports[..0] == [];
  }

  lemma {:induction false} ResolvesFromDraws(y: System, caller: Caller, spec: Spec, id: ContainerID, n: nat)
    requires caller in y.creators && y.creators[caller] == Creator(id, spec, 0, []) && n <= |spec.ports|
    ensures ResolvedAlone(y.store, ResolveAlone(y, caller, n), caller, spec, id, n)
  {
    if n == 0 {
      NothingResolved(y, caller, spec, id);
    } else {
      ResolvesFromDraws(y, caller, spec, id, n - 1);
      ResolvedAloneStep(y.store, ResolveAlone(y, caller, n - 1), caller, spec, id, n);
    }
  }

  // A create that nobody interrupts does to the store what the sequential CreateContainer promises.
  lemma CreateAlone(y: System, caller: Caller, spec: Spec, ports: seq<Port>)
    requires SystemRefs(y) && caller !in y.creators && spec.image != ""
    requires SortedPorts(ports, ResolvedAfter(y.store.ephemeralPort, spec.ports))
    ensures var n, z := Add1(y.store.counter), ZeroHosts(spec.ports);
            var reserved := Apply(y, Reserve(caller, spec));
            var resolved := ResolveAlone(reserved, caller, |spec.ports|);
            && Refs(resolved.store)
            && ApplyInsert(resolved, caller, ports).store ==
               InsertStep(y.store.(counter := n, ephemeralPort := Advance(y.store.ephemeralPort, z)), IdOf(n), spec,
                   ports)
  {
    ResolvesFromDraws(Apply(y, Reserve(caller, spec)), caller, spec, IdOf(Add1(y.store.counter)), |spec.ports|);
    assert spec.ports[..|spec.ports|] == spec.ports;
  }

  // One create of a spec, resolved up to its n-th entry, with nobody else around.
  ghost function ResolvingRun(spec: Spec, n: nat): seq<Label> {
    if n == 0 then [Reserve(0, spec)] else ResolvingRun(spec, n - 1) + [ResolvePort(0)]
  }

  ghost predicate Resolving(y: System, spec: Spec, n: nat) {
    && y.store.objs == [] && y.issued == 1 && |y.draws| == n
    && 0 in y.creators && y.creators[0].id == IdOf(1) && y.creators[0].spec == spec && y.creators[0].next == n
  }

  lemma ResolvingStep(y: System, spec: Spec, n: nat)
    requires SystemRefs(y) && Resolving(y, spec, n) && n < |spec.ports| && spec.ports[n].host == 0
    ensures Resolving(Apply(y, ResolvePort(0)), spec, n + 1)
  {
  }

  lemma {:induction false} ResolvingReached(spec: Spec, n: nat)
    requires spec.image != "" && n <= |spec.ports| && forall p | p in spec.ports :: p.host == 0
    ensures Resolving(Exec(ResolvingRun(spec, n)), spec, n)
  {
    if n == 0 {
      assert [Reserve(0, spec)] == [] + [Reserve(0, spec)];
      LastStep([], Reserve(0, spec));
    } else {
      ResolvingReached(spec, n - 1);
      LastStep(ResolvingRun(spec, n - 1), ResolvePort(0));
      ResolvingStep(Exec(ResolvingRun(spec, n - 1)), spec, n - 1);
    }
  }

  lemma InsertedAlone(y: System, ports: seq<Port>)
    requires SystemRefs(y) && y.store.objs == [] && CanInsert(y, 0, ports)
    ensures var r := Apply(y, Insert(0, ports));
            |r.store.objs| == 1 && r.store.objs[0].id == y.creators[0].id && r.draws == y.draws && r.issued == y.issued
  {
  }

  // The insertion that ends such a create.
  lemma CreateReached(spec: Spec) returns (run: seq<Label>)
    requires spec.image != "" && forall p | p in spec.ports :: p.host == 0
    ensures Exec(run).issued == 1 && |Exec(run).draws| == |spec.ports|
    ensures |Exec(run).store.objs| == 1 && Exec(run).store.objs[0].id == IdOf(1)
  {
    var before := ResolvingRun(spec, |spec.ports|);
    ResolvingReached(spec, |spec.ports|);
    var resolved := Exec(before).creators[0].resolved;
    var ports := SomeArrangement(resolved);
    var insert := Insert(0, ports);
    InsertedAlone(Exec(before), insert.ports);
    LastStep(before, insert);
    run := before + [insert];
  }

  lemma OnlyIdDrew(y: System, k: nat)
    requires PortsInv(y) && y.issued == 1 && k < |y.draws|
    ensures y.draws[k].id == IdOf(1)
  {
    assert y.draws[k] in y.draws;
  }

  // A run in which it happens: one container that asks for 32769 ephemeral ports.
  lemma ZeroPortIsReached() returns (run: seq<Label>)
    ensures Exec(run).issued < TWO64 && |Exec(run).store.objs| == 1 && ReportsZero(Exec(run).store.objs[0].ports)
  {
    run := CreateReached(Spec("alpine", "", map[], [], [], [], seq(32769, _ => Port(80, 0, "", ""))));
    PortsReachable(run);
    OnlyIdDrew(Exec(run), 32768);
    ZeroPortReportedIff(run, 0);
  }
}
