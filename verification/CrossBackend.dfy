/** The fake and the Docker driver report the same ports for the same explicit spec. */
module CrossBackend {
  import opened Outcomes
  import opened Decimal
  import opened Ports
  import FakeStore
  import DockerPorts

  ghost predicate ExplicitHosts(ports: seq<Port>) {
    forall p | p in ports :: p.host != 0
  }

  lemma {:induction false} ExplicitResolution(ports: seq<Port>)
    requires ExplicitHosts(ports)
    ensures FakeStore.ZeroHosts(ports) == 0
    ensures FakeStore.Resolved(ports, []) == DockerPorts.WithHostPort(ports)
  {
    if ports != [] {
      assert ports[|ports| - 1] in ports;
      ExplicitResolution(ports[..|ports| - 1]);
    }
  }

  // fakeOut is what the fake resolves from ports; dockerOut is what the Docker driver reports for the stopped
  // container that it configured with pm, its conversion of ports.
  ghost predicate BothReport<Addr>(lib: DockerPorts.NetLib<Addr>, ports: seq<Port>, pm: DockerPorts.PortMap<Addr>,
                                   fakeOut: seq<Port>, dockerOut: seq<Port>)
  {
    && FakeStore.ZeroHosts(ports) == 0
    && SortedPorts(fakeOut, FakeStore.Resolved(ports, []))
    && DockerPorts.Groups(lib, ports, pm) && DockerPorts.Inspected(lib, pm, dockerOut)
  }

  // For specs with explicit host ports, protocols and addresses in the libraries' own spelling, the two backends
  // report the same multiset of ports with the same key sequence, and the same list unless two ports tie.
  lemma BackendsAgree<Addr>(lib: DockerPorts.NetLib<Addr>, ports: seq<Port>, pm: DockerPorts.PortMap<Addr>,
                            fakeOut: seq<Port>, dockerOut: seq<Port>)
    requires ExplicitHosts(ports) && forall p | p in ports :: DockerPorts.Canonical(lib, p)
    requires BothReport(lib, ports, pm, fakeOut, dockerOut)
    ensures multiset(fakeOut) == multiset(dockerOut)
    ensures Keys(fakeOut) == Keys(dockerOut)
    ensures DistinctKeys(fakeOut) ==> fakeOut == dockerOut
  {
    ExplicitResolution(ports);
    DockerPorts.CanonicalRoundTrip(lib, ports, pm, dockerOut);
    assert SortedPorts(fakeOut, fakeOut) && SortedPorts(dockerOut, fakeOut);
    SortedKeysAgree(fakeOut, dockerOut, fakeOut, fakeOut);
  }

  lemma SingletonIs(out: seq<Port>, p: Port)
    requires multiset(out) == multiset([p])
    ensures out == [p]
  {
    assert |out| == |multiset(out)| == 1;
    assert out[0] in multiset(out);
  }

  // What one more explicit port adds on the fake's side and on the driver's.
  lemma ListsSnoc<Addr>(lib: DockerPorts.NetLib<Addr>, ports: seq<Port>, p: Port)
    requires p.host != 0
    ensures DockerPorts.WithHostPort(ports + [p]) == DockerPorts.WithHostPort(ports) + [DockerPorts.Defaulted(p)]
    ensures DockerPorts.Reported(lib, ports + [p]) ==
            DockerPorts.Reported(lib, ports) + [DockerPorts.Understood(lib, p)]
  {
    assert (ports + [p])[..|ports + [p]| - 1] == ports;
  }

  // For a one-port spec that the driver accepts, agreement holds exactly when the port is canonical, whatever the
  // libraries do.
  lemma OnePortAgreement<Addr>(lib: DockerPorts.NetLib<Addr>, p: Port, pm: DockerPorts.PortMap<Addr>,
                               fakeOut: seq<Port>, dockerOut: seq<Port>)
    requires p.host != 0 && DockerPorts.Accepted(lib, p)
    requires BothReport(lib, [p], pm, fakeOut, dockerOut)
    ensures fakeOut == dockerOut <==> DockerPorts.Canonical(lib, p)
  {
    ExplicitResolution([p]);
    DockerPorts.ConvertInspectRoundTrip(lib, [p], pm, dockerOut);
    assert [] + [p] == [p];
    ListsSnoc(lib, [], p);
    DockerPorts.CanonicalIffUnderstood(lib, p);
    SingletonIs(fakeOut, DockerPorts.Defaulted(p));
    SingletonIs(dockerOut, DockerPorts.Understood(lib, p));
  }

  // For explicit specs the driver accepts, the two backends report the same multiset exactly when every port is
  // canonical. Libraries that did not parse back what they print could make two ports trade spellings.
  lemma AgreementNeedsCanonical<Addr(!new)>(lib: DockerPorts.NetLib<Addr>, ports: seq<Port>,
                                            pm: DockerPorts.PortMap<Addr>, fakeOut: seq<Port>, dockerOut: seq<Port>)
    requires DockerPorts.ParsesOwnPrint(lib) && ExplicitHosts(ports) && DockerPorts.AllAccepted(lib, ports)
    requires BothReport(lib, ports, pm, fakeOut, dockerOut)
    ensures multiset(fakeOut) == multiset(dockerOut) <==> forall p | p in ports :: DockerPorts.Canonical(lib, p)
  {
    ExplicitResolution(ports);
    DockerPorts.ConvertInspectRoundTrip(lib, ports, pm, dockerOut);
    DockerPorts.RoundTripIffCanonical(lib, ports, pm, dockerOut);
  }

  // Where the law is needed: a library that reads two protocol names as each other. Both ports are accepted, neither
  // is canonical, and still what the driver reports is what the fake reports.
  lemma SwappedSpellings<Addr>(lib: DockerPorts.NetLib<Addr>, num: uint16, host: uint16)
    requires host != 0
    requires lib.parsePort(DockerPorts.PortText(num, "a")) == Some(DockerPorts.PortKey(num, "b"))
    requires lib.parsePort(DockerPorts.PortText(num, "b")) == Some(DockerPorts.PortKey(num, "a"))
    ensures var p, q := Port(num, host, "", "a"), Port(num, host, "", "b");
            && DockerPorts.Accepted(lib, p) && DockerPorts.Accepted(lib, q)
            && !DockerPorts.Canonical(lib, p) && !DockerPorts.Canonical(lib, q)
            && multiset(DockerPorts.WithHostPort([p, q])) == multiset(DockerPorts.Reported(lib, [p, q]))
  {
    var p, q := Port(num, host, "", "a"), Port(num, host, "", "b");
    assert "a"[0] != "b"[0];
    assert DockerPorts.Understood(lib, p) == q && DockerPorts.Understood(lib, q) == p;
    assert [] + [p] + [q] == [p, q];
    ListsSnoc(lib, [], p);
    ListsSnoc(lib, [] + [p], q);
  }
}
