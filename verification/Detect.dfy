/** Engine detection (detect.go): a priority ladder in which engine clients are opened, probed, and either closed
    or returned. The clients opened and not yet closed are the resource that must not leak. */
module Detect {
  import opened Outcomes

  datatype EngineKind = Docker | Podman | Containerd | Unknown(name: string)

  // One client to open: its kind and the address it is pointed at.
  datatype Target = Target(kind: EngineKind, host: string)

  // How one opened client behaves: whether opening, pinging and asking for daemon info succeed.
  datatype Probe = Probe(opens: bool, pings: bool, info: bool)

  datatype DetectError =
    | OpenFailed
    | InfoFailed
    | TLSFailed
    | ContextFailed
    | MutuallyExclusive
    | Unsupported
    | NoEngine

  // The machine. behave answers for the n-th attempt to open a client, so two attempts on one address may differ.
  class Machine {
    const behave: (nat, Target) -> Probe
    var attempts: seq<Target>
    var live: set<nat>

    constructor (behave: (nat, Target) -> Probe)
      ensures this.behave == behave && attempts == [] && live == {}
    {
      this.behave := behave;
      attempts := [];
      live := {};
    }

    // A client's handle is the number of the attempt that opened it.
    ghost predicate Valid()
      reads this
    {
      forall h | h in live :: h < |attempts|
    }

    method Open(t: Target) returns (h: Option<nat>)
      requires Valid()
      modifies this
      ensures Valid() && attempts == old(attempts) + [t]
      ensures h == if behave(|old(attempts)|, t).opens then Some(|old(attempts)|) else None
      ensures live == if h.Some? then old(live) + {h.value} else old(live)
    {
      var n := |attempts|;
      attempts := attempts + [t];
      if !behave(n, t).opens {
        return None;
      }
      live := live + {n};
      return Some(n);
    }

    // Only a live client can be used or closed.
    method Ping(h: nat) returns (ok: bool)
      requires Valid() && h in live
      ensures ok == behave(h, attempts[h]).pings
    {
      ok := behave(h, attempts[h]).pings;
    }

    method ResolveInfo(h: nat) returns (ok: bool)
      requires Valid() && h in live
      ensures ok == behave(h, attempts[h]).info
    {
      ok := behave(h, attempts[h]).info;
    }

    method Close(h: nat)
      requires Valid() && h in live
      modifies `live
      ensures Valid() && live == old(live) - {h}
    {
      live := live - {h};
    }
  }

  // The options and environment New consults. home is None when it cannot be determined; the TLS flags say whether
  // TLS material could be loaded; contexts gives the endpoint stored for a Docker context name.
  datatype Env = Env(
    kind: Option<EngineKind>,
    endpointHost: Option<string>,
    endpointTLS: bool,
    dockerHost: string,
    dockerHostTLS: bool,
    containerHost: string,
    dockerContext: string,
    activeContext: string,
    contexts: string -> Option<string>,
    containerEngine: string,
    containerdAddress: string,
    xdgRuntimeDir: string,
    home: Option<string>)

  const DOCKER_SOCKET := "/var/run/docker.sock"
  const PODMAN_ROOTFUL_SOCKET := "/run/podman/podman.sock"
  const CONTAINERD_SOCKET := "/run/containerd/containerd.sock"

  // A well-known socket and the client that would be opened for it.
  datatype Candidate = Candidate(socket: string, target: Target)

  function DockerCandidate(socket: string, kind: EngineKind): Candidate {
    Candidate(socket, Target(kind, "unix://" + socket))
  }

  function DockerDesktopSocket(env: Env): string {
    if env.home.None? then "" else env.home.value + "/.docker/run/docker.sock"
  }

  function PodmanRootlessSocket(env: Env): string {
    if env.xdgRuntimeDir != "" then env.xdgRuntimeDir + "/podman/podman.sock"
    else if env.home.None? then ""
    else env.home.value + "/.local/share/containers/podman/machine/podman.sock"
  }

  function Candidates(env: Env): seq<Candidate> {
    [DockerCandidate(DOCKER_SOCKET, Docker),
     DockerCandidate(DockerDesktopSocket(env), Docker),
     DockerCandidate(PodmanRootlessSocket(env), Podman),
     DockerCandidate(PODMAN_ROOTFUL_SOCKET, Podman),
     Candidate(CONTAINERD_SOCKET, Target(Containerd, CONTAINERD_SOCKET))]
  }

  // The targets a search may open: the candidates with a known socket, in priority order.
  ghost function Searchable(cs: seq<Candidate>): seq<Target> {
    if cs == [] then []
    else
      var n := |cs| - 1;
      Searchable(cs[..n]) + (if cs[n].socket == "" then [] else [cs[n].target])
  }

  lemma SearchableSnoc(cs: seq<Candidate>, c: Candidate)
    ensures Searchable(cs + [c]) == Searchable(cs) + (if c.socket == "" then [] else [c.target])
  {
    assert (cs + [c])[..|cs + [c]| - 1] == cs;
  }

  // A client worth returning: it opened, it answers a ping and, over the Docker API, the info call.
  ghost predicate Works(t: Target, p: Probe) {
    p.opens && p.pings && (t.kind != Containerd ==> p.info)
  }

  // The documented socket priority, address by address. The desktop socket needs a home directory; the rootless Podman
  // socket is under XDG_RUNTIME_DIR if that is set, else under home.
  ghost function DocumentedTargets(env: Env): seq<Target> {
    [Target(Docker, "unix:///var/run/docker.sock")]
    + (if env.home.Some? then [Target(Docker, "unix://" + env.home.value + "/.docker/run/docker.sock")] else [])
    + (if env.xdgRuntimeDir != "" then [Target(Podman, "unix://" + env.xdgRuntimeDir + "/podman/podman.sock")]
       else if env.home.Some? then
         [Target(Podman, "unix://" + env.home.value + "/.local/share/containers/podman/machine/podman.sock")]
       else [])
    + [Target(Podman, "unix:///run/podman/podman.sock")]
    + [Target(Containerd, "/run/containerd/containerd.sock")]
  }

  lemma DockerAddress()
    ensures DockerCandidate(DOCKER_SOCKET, Docker).target == Target(Docker, "unix:///var/run/docker.sock")
  {
    assert "unix://" + DOCKER_SOCKET == "unix:///var/run/docker.sock";
  }

  lemma RootfulAddress()
    ensures DockerCandidate(PODMAN_ROOTFUL_SOCKET, Podman).target == Target(Podman, "unix:///run/podman/podman.sock")
  {
    assert "unix://" + PODMAN_ROOTFUL_SOCKET == "unix:///run/podman/podman.sock";
  }

  lemma AddressUnder(dir: string, rest: string, kind: EngineKind)
    ensures DockerCandidate(dir + rest, kind).target == Target(kind, "unix://" + dir + rest)
  {
    assert "unix://" + (dir + rest) == "unix://" + dir + rest;
  }

  // What one candidate adds to a search.
  ghost function Searched(c: Candidate): seq<Target> {
    if c.socket == "" then [] else [c.target]
  }

  lemma SearchableNext(cs: seq<Candidate>, i: nat, ts: seq<Target>)
    requires i < |cs| && Searchable(cs[..i]) == ts
    ensures Searchable(cs[..i + 1]) == ts + Searched(cs[i])
  {
    assert cs[..i + 1] == cs[..i] + [cs[i]];
    SearchableSnoc(cs[..i], cs[i]);
  }

  lemma SearchableWhole(cs: seq<Candidate>, n: nat)
    requires n == |cs|
    ensures Searchable(cs[..0]) == [] && Searchable(cs[..n]) == Searchable(cs)
  {
    assert cs[..n] == cs;
  }

  lemma FiveSearchable(cs: seq<Candidate>, a: seq<Target>, b: seq<Target>, c: seq<Target>, d: seq<Target>,
                       e: seq<Target>)
    requires |cs| == 5 && a == Searched(cs[0]) && b == Searched(cs[1]) && c == Searched(cs[2])
    requires d == Searched(cs[3]) && e == Searched(cs[4])
    ensures Searchable(cs) == [] + a + b + c + d + e
  {
    SearchableWhole(cs, 5);
    SearchableNext(cs, 0, []);
    SearchableNext(cs, 1, [] + a);
    SearchableNext(cs, 2, [] + a + b);
    SearchableNext(cs, 3, [] + a + b + c);
    SearchableNext(cs, 4, [] + a + b + c + d);
  }

  lemma DesktopSearched(env: Env)
    ensures Searched(DockerCandidate(DockerDesktopSocket(env), Docker)) ==
            if env.home.Some? then [Target(Docker, "unix://" + env.home.value + "/.docker/run/docker.sock")] else []
  {
    if env.home.Some? {
      AddressUnder(env.home.value, "/.docker/run/docker.sock", Docker);
    }
  }

  lemma RootlessSearched(env: Env)
    ensures Searched(DockerCandidate(PodmanRootlessSocket(env), Podman)) ==
            if env.xdgRuntimeDir != "" then [Target(Podman, "unix://" + env.xdgRuntimeDir + "/podman/podman.sock")]
            else if env.home.Some? then
              [Target(Podman, "unix://" + env.home.value + "/.local/share/containers/podman/machine/podman.sock")]
            else []
  {
    if env.xdgRuntimeDir != "" {
      AddressUnder(env.xdgRuntimeDir, "/podman/podman.sock", Podman);
    } else if env.home.Some? {
      AddressUnder(env.home.value, "/.local/share/containers/podman/machine/podman.sock", Podman);
    }
  }

  // The candidates of the code are those targets.
  lemma SearchesDocumented(env: Env)
    ensures Searchable(Candidates(env)) == DocumentedTargets(env)
  {
    var cs := Candidates(env);
    DockerAddress();
    RootfulAddress();
    DesktopSearched(env);
    RootlessSearched(env);
    FiveSearchable(cs, Searched(cs[0]), Searched(cs[1]), Searched(cs[2]), Searched(cs[3]), Searched(cs[4]));
  }

  // None of the targets ts, opened as attempts base, base + 1, ..., works.
  ghost predicate NoneWorks(behave: (nat, Target) -> Probe, base: nat, ts: seq<Target>) {
    forall i | 0 <= i < |ts| :: !Works(ts[i], behave(base + i, ts[i]))
  }

  // Either target j was opened as attempt h, works, every earlier one was opened and does not work, nothing later was
  // opened, and h alone is newly live; or all were opened, none works, and nothing is newly live.
  ghost predicate SearchOutcome(behave: (nat, Target) -> Probe, before: seq<Target>, live: set<nat>, ts: seq<Target>,
                                r: Result<nat, DetectError>, after: seq<Target>, live': set<nat>)
  {
    match r
    case Ok(h) =>
      var j := h - |before|;
      && 0 <= j < |ts|
      && Works(ts[j], behave(h, ts[j]))
      && NoneWorks(behave, |before|, ts[..j])
      && after == before + ts[..j + 1]
      && live' == live + {h}
    case Err(e) =>
      && e == NoEngine
      && NoneWorks(behave, |before|, ts)
      && after == before + ts
      && live' == live
  }

  // One candidate of autoDetect: opened, probed, and closed again unless it works.
  method TryCandidate(m: Machine, t: Target) returns (eng: Option<nat>)
    requires m.Valid()
    modifies m
    ensures m.Valid() && m.attempts == old(m.attempts) + [t]
    ensures var n := |old(m.attempts)|; eng == if Works(t, m.behave(n, t)) then Some(n) else None
    ensures m.live == if eng.Some? then old(m.live) + {eng.value} else old(m.live)
  {
    var client := m.Open(t);
    if client.None? {
      return None;
    }
    var pinged := m.Ping(client.value);
    if !pinged {
      m.Close(client.value);
      return None;
    }
    if t.kind != Containerd {
      var resolved := m.ResolveInfo(client.value);
      if !resolved {
        m.Close(client.value);
        return None;
      }
    }
    return client;
  }

  lemma NoneWorksSnoc(behave: (nat, Target) -> Probe, base: nat, ts: seq<Target>, t: Target)
    requires NoneWorks(behave, base, ts) && !Works(t, behave(base + |ts|, t))
    ensures NoneWorks(behave, base, ts + [t])
  {
  }

  lemma {:induction false} SearchablePrefix(cs: seq<Candidate>, i: nat)
    requires i <= |cs|
    ensures Searchable(cs[..i]) <= Searchable(cs)
    decreases |cs| - i
  {
    if i == |cs| {
      assert cs[..i] == cs;
    } else {
      assert cs[..i + 1] == cs[..i] + [cs[i]];
      SearchableSnoc(cs[..i], cs[i]);
      SearchablePrefix(cs, i + 1);
    }
  }

  // Where candidate i stands among the searchable targets.
  lemma FirstFound(cs: seq<Candidate>, i: nat)
    requires i < |cs| && cs[i].socket != ""
    ensures var ts, j := Searchable(cs), |Searchable(cs[..i])|;
            j < |ts| && ts[j] == cs[i].target && ts[..j] == Searchable(cs[..i])
                && ts[..j + 1] == Searchable(cs[..i]) + [ts[j]]
  {
    assert cs[..i + 1] == cs[..i] + [cs[i]];
    SearchableSnoc(cs[..i], cs[i]);
    SearchablePrefix(cs, i + 1);
  }

  // The outcome when candidate i works and none before it did.
  lemma FoundOutcome(behave: (nat, Target) -> Probe, before: seq<Target>, live: set<nat>, cs: seq<Candidate>, i: nat)
    requires i < |cs| && cs[i].socket != ""
    requires var n := |before| + |Searchable(cs[..i])|;
             Works(cs[i].target, behave(n, cs[i].target)) && NoneWorks(behave, |before|, Searchable(cs[..i]))
    ensures var tried := Searchable(cs[..i]); var n := |before| + |tried|;
            SearchOutcome(behave, before, live, Searchable(cs), Ok(n), before + tried + [cs[i].target], live + {n})
  {
    FirstFound(cs, i);
    var tried := Searchable(cs[..i]);
    assert before + tried + [cs[i].target] == before + (tried + [cs[i].target]);
  }

  method SearchCandidates(m: Machine, cs: seq<Candidate>) returns (r: Result<nat, DetectError>)
    requires m.Valid()
    modifies m
    ensures m.Valid()
    ensures SearchOutcome(m.behave, old(m.attempts), old(m.live), Searchable(cs), r, m.attempts, m.live)
  {
    ghost var before, live, tried := m.attempts, m.live, Searchable([]);
    for i := 0 to |cs|
      invariant m.Valid() && tried == Searchable(cs[..i])
      invariant m.attempts == before + tried && m.live == live
      invariant NoneWorks(m.behave, |before|, tried)
    {
      assert cs[..i + 1] == cs[..i] + [cs[i]];
      SearchableSnoc(cs[..i], cs[i]);
      if cs[i].socket == "" {
        continue;
      }
      var t := cs[i].target;
      var eng := TryCandidate(m, t);
      if eng.Some? {
        FoundOutcome(m.behave, before, live, cs, i);
        return Ok(eng.value);
      }
      NoneWorksSnoc(m.behave, |before|, tried, t);
      assert m.attempts == before + (tried + [t]);
      tried := tried + [t];
    }
    assert cs[..|cs|] == cs;
    return Err(NoEngine);
  }

  // autoDetect returns the first candidate that works, opens nothing after it, and closes all it rejects.
  method AutoDetect(m: Machine, env: Env) returns (r: Result<nat, DetectError>)
    requires m.Valid()
    modifies m
    ensures m.Valid()
    ensures SearchOutcome(m.behave, old(m.attempts), old(m.live), Searchable(Candidates(env)), r, m.attempts, m.live)
    ensures SearchOutcome(m.behave, old(m.attempts), old(m.live), DocumentedTargets(env), r, m.attempts, m.live)
  {
    SearchesDocumented(env);
    r := SearchCandidates(m, Candidates(env));
  }

  // One client opened, asked for info, and returned or closed again.
  ghost predicate ResolveOutcome(behave: (nat, Target) -> Probe, before: seq<Target>, live: set<nat>, t: Target,
                                 r: Result<nat, DetectError>, after: seq<Target>, live': set<nat>)
  {
    var p := behave(|before|, t);
    && after == before + [t]
    && r == (if !p.opens then Err(OpenFailed) else if !p.info then Err(InfoFailed) else Ok(|before|))
    && live' == if r.Ok? then live + {|before|} else live
  }

  // One client opened and returned unprobed.
  ghost predicate OpenOutcome(behave: (nat, Target) -> Probe, before: seq<Target>, live: set<nat>, t: Target,
                              r: Result<nat, DetectError>, after: seq<Target>, live': set<nat>)
  {
    && after == before + [t]
    && r == (if behave(|before|, t).opens then Ok(|before|) else Err(OpenFailed))
    && live' == if r.Ok? then live + {|before|} else live
  }

  method BuildAndResolveDockerEngine(m: Machine, t: Target) returns (r: Result<nat, DetectError>)
    requires m.Valid()
    modifies m
    ensures m.Valid()
    ensures ResolveOutcome(m.behave, old(m.attempts), old(m.live), t, r, m.attempts, m.live)
  {
    var client := m.Open(t);
    if client.None? {
      return Err(OpenFailed);
    }
    var resolved := m.ResolveInfo(client.value);
    if !resolved {
      m.Close(client.value);
      return Err(InfoFailed);
    }
    return Ok(client.value);
  }

  function TrimScheme(s: string): string {
    if "unix://" <= s then s[7..] else s
  }

  function ContainerdTarget(socket: string): Target {
    var path := TrimScheme(socket);
    Target(Containerd, if path == "" then CONTAINERD_SOCKET else path)
  }

  // What the ladder decides before anything is opened.
  datatype Plan = Refuse(error: DetectError) | Resolve(target: Target) | OpenOnly(target: Target) | Search

  function KindPlan(env: Env, kind: EngineKind): Plan {
    match kind
    case Unknown(_) => Refuse(Unsupported)
    case Containerd =>
      OpenOnly(ContainerdTarget(
        if env.endpointHost.Some? && env.endpointHost.value != "" then env.endpointHost.value
        else env.containerdAddress))
    case _ =>
      if !env.endpointTLS then Refuse(TLSFailed)
      else Resolve(Target(kind, if env.endpointHost.Some? then env.endpointHost.value else ""))
  }

  function ContextPlan(env: Env, name: string): Plan {
    match env.contexts(name)
    case Some(host) => Resolve(Target(Docker, host))
    case None => Refuse(ContextFailed)
  }

  function EngineKindFromEnv(env: Env): Option<EngineKind> {
    if env.containerEngine == "docker" then Some(Docker)
    else if env.containerEngine == "podman" then Some(Podman)
    else if env.containerEngine == "containerd" then Some(Containerd)
    else None
  }

  // The ladder: explicit kind, environment endpoints, CONTAINER_ENGINE, socket search.
  function PlanOf(env: Env): Plan {
    if env.kind.Some? then KindPlan(env, env.kind.value)
    else if env.dockerHost != "" && env.dockerContext != "" then Refuse(MutuallyExclusive)
    else if env.dockerHost != "" then
      if env.dockerHostTLS then Resolve(Target(Docker, env.dockerHost)) else Refuse(TLSFailed)
    else if env.containerHost != "" then Resolve(Target(Podman, env.containerHost))
    else if env.dockerContext != "" then ContextPlan(env, env.dockerContext)
    else if env.activeContext != "" then ContextPlan(env, env.activeContext)
    else match EngineKindFromEnv(env)
      case Some(kind) => KindPlan(env, kind)
      case None => Search
  }

  ghost predicate PlanOutcome(plan: Plan, env: Env, behave: (nat, Target) -> Probe, before: seq<Target>, live: set<nat>,
                              r: Result<nat, DetectError>, after: seq<Target>, live': set<nat>)
  {
    match plan
    case Refuse(e) => r == Err(e) && after == before && live' == live
    case Resolve(t) => ResolveOutcome(behave, before, live, t, r, after, live')
    case OpenOnly(t) => OpenOutcome(behave, before, live, t, r, after, live')
    case Search => SearchOutcome(behave, before, live, Searchable(Candidates(env)), r, after, live')
  }

  method OpenKind(m: Machine, env: Env, kind: EngineKind) returns (r: Result<nat, DetectError>)
    requires m.Valid()
    modifies m
    ensures m.Valid()
    ensures PlanOutcome(KindPlan(env, kind), env, m.behave, old(m.attempts), old(m.live), r, m.attempts, m.live)
  {
    match kind
    case Unknown(_) =>
      return Err(Unsupported);
    case Containerd =>
      var socket := if env.endpointHost.Some? then env.endpointHost.value else "";
      if socket == "" {
        socket := env.containerdAddress;
      }
      var client := m.Open(ContainerdTarget(socket));
      return if client.Some? then Ok(client.value) else Err(OpenFailed);
    case _ =>
      if !env.endpointTLS {
        return Err(TLSFailed);
      }
      r := BuildAndResolveDockerEngine(m, Target(kind, if env.endpointHost.Some? then env.endpointHost.value else ""));
  }

  method OpenContext(m: Machine, env: Env, name: string) returns (r: Result<nat, DetectError>)
    requires m.Valid()
    modifies m
    ensures m.Valid()
    ensures PlanOutcome(ContextPlan(env, name), env, m.behave, old(m.attempts), old(m.live), r, m.attempts, m.live)
  {
    var host := env.contexts(name);
    if host.None? {
      return Err(ContextFailed);
    }
    r := BuildAndResolveDockerEngine(m, Target(Docker, host.value));
  }

  predicate EnvironmentDecides(env: Env) {
    env.dockerHost != "" || env.containerHost != "" || env.dockerContext != "" || env.activeContext != ""
  }

  // envEndpoint: None means that no environment endpoint is configured and nothing was touched.
  method EnvEndpoint(m: Machine, env: Env) returns (r: Option<Result<nat, DetectError>>)
    requires m.Valid() && env.kind.None?
    modifies m
    ensures m.Valid()
    ensures r.Some? <==> EnvironmentDecides(env)
    ensures r.Some? ==> PlanOutcome(PlanOf(env), env, m.behave, old(m.attempts), old(m.live),
                                    r.value, m.attempts, m.live)
    ensures r.None? ==> m.attempts == old(m.attempts) && m.live == old(m.live)
  {
    if env.dockerHost != "" && env.dockerContext != "" {
      return Some(Err(MutuallyExclusive));
    }
    var answer: Result<nat, DetectError>;
    if env.dockerHost != "" {
      if !env.dockerHostTLS {
        return Some(Err(TLSFailed));
      }
      answer := BuildAndResolveDockerEngine(m, Target(Docker, env.dockerHost));
    } else if env.containerHost != "" {
      answer := BuildAndResolveDockerEngine(m, Target(Podman, env.containerHost));
    } else if env.dockerContext != "" {
      answer := OpenContext(m, env, env.dockerContext);
    } else if env.activeContext != "" {
      answer := OpenContext(m, env, env.activeContext);
    } else {
      return None;
    }
    return Some(answer);
  }

  lemma SomeWorks(behave: (nat, Target) -> Probe, base: nat, ts: seq<Target>, n: nat, j: nat)
    requires j < n <= |ts| && Works(ts[j], behave(base + j, ts[j]))
    ensures !NoneWorks(behave, base, ts[..n])
  {
    assert ts[..n][j] == ts[j];
  }

  // A search that finds no engine means no candidate socket answers, and a candidate whose socket is known and that
  // works is found unless an earlier one works too.
  lemma SearchFindsFirst(behave: (nat, Target) -> Probe, before: seq<Target>, live: set<nat>, ts: seq<Target>,
                         r: Result<nat, DetectError>, after: seq<Target>, live': set<nat>, j: nat)
    requires SearchOutcome(behave, before, live, ts, r, after, live')
    requires j < |ts| && Works(ts[j], behave(|before| + j, ts[j]))
    ensures r.Ok? && r.value <= |before| + j
    ensures r == Ok(|before| + j) <==> NoneWorks(behave, |before|, ts[..j])
  {
    forall n: nat | j < n <= |ts| ensures !NoneWorks(behave, |before|, ts[..n]) {
      SomeWorks(behave, |before|, ts, n, j);
    }
    assert ts[..|ts|] == ts;
    if r.Ok? {
      var h := r.value - |before|;
      forall n: nat | h < n <= |ts| ensures !NoneWorks(behave, |before|, ts[..n]) {
        SomeWorks(behave, |before|, ts, n, h);
      }
    }
  }

  // The engine opened as attempt h answers a ping.
  ghost predicate Pings(behave: (nat, Target) -> Probe, after: seq<Target>, h: nat) {
    h < |after| && behave(h, after[h]).pings
  }

  // What the documentation of New promises first: whatever the engines do, one that is returned answers a ping.
  ghost predicate ReturnsOnlyReachable(env: Env) {
    forall behave, before, live, r: Result<nat, DetectError>, after, live' |
      PlanOutcome(PlanOf(env), env, behave, before, live, r, after, live') && r.Ok? :: Pings(behave, after, r.value)
  }

  lemma UnprobedReturned(env: Env)
    requires PlanOf(env).Resolve? || PlanOf(env).OpenOnly?
    ensures !ReturnsOnlyReachable(env)
  {
    var behave := (n: nat, t: Target) => Probe(true, false, true);
    var t := PlanOf(env).target;
    assert [] + [t] == [t];
    assert PlanOutcome(PlanOf(env), env, behave, [], {}, Ok(0), [t], {0});
    assert !Pings(behave, [t], 0);
  }

  lemma FoundPings(behave: (nat, Target) -> Probe, before: seq<Target>, live: set<nat>, ts: seq<Target>,
                   h: nat, after: seq<Target>, live': set<nat>)
    requires SearchOutcome(behave, before, live, ts, Ok(h), after, live')
    ensures Pings(behave, after, h)
  {
    var j := h - |before|;
    assert after[h] == ts[..j + 1][j] == ts[j];
  }

  // It holds exactly when New searches the sockets or opens nothing at all: an explicitly selected engine or
  // environment endpoint is returned without a ping.
  lemma ReturnsOnlyReachableIff(env: Env)
    ensures ReturnsOnlyReachable(env) <==> PlanOf(env).Search? || PlanOf(env).Refuse?
  {
    match PlanOf(env)
    case Resolve(_) => UnprobedReturned(env);
    case OpenOnly(_) => UnprobedReturned(env);
    case Refuse(_) =>
    case Search =>
      forall behave, before, live, r: Result<nat, DetectError>, after, live' |
        PlanOutcome(PlanOf(env), env, behave, before, live, r, after, live') && r.Ok?
        ensures Pings(behave, after, r.value)
      {
        FoundPings(behave, before, live, Searchable(Candidates(env)), r.value, after, live');
      }
  }

  // A machine whose engines behave the same at every attempt.
  function Steady(probe: Target -> Probe): (nat, Target) -> Probe {
    (n, t) => probe(t)
  }

  // What it promises next: while some well-known socket has a working engine, New returns an engine.
  ghost predicate FindsAnyWorking(env: Env) {
    forall probe, before, live, r: Result<nat, DetectError>, after, live', t |
      && PlanOutcome(PlanOf(env), env, Steady(probe), before, live, r, after, live')
      && t in Searchable(Candidates(env)) && Works(t, probe(t)) :: r.Ok?
  }

  // Nothing in the options or the environment selects an engine.
  predicate NothingConfigured(env: Env) {
    env.kind.None? && !EnvironmentDecides(env) && EngineKindFromEnv(env).None?
  }

  lemma SearchableHas(cs: seq<Candidate>, i: nat)
    requires i < |cs| && cs[i].socket != ""
    ensures cs[i].target in Searchable(cs)
  {
    FirstFound(cs, i);
  }

  // Whatever target a plan is set on, some candidate socket is another one.
  lemma AnotherCandidate(env: Env, t: Target) returns (c: Target)
    ensures c in Searchable(Candidates(env)) && c != t
  {
    var cs := Candidates(env);
    SearchableHas(cs, 0);
    SearchableHas(cs, 4);
    c := if t.kind == Docker then cs[4].target else cs[0].target;
  }

  lemma RefusalIsFinal(env: Env)
    requires PlanOf(env).Refuse?
    ensures !FindsAnyWorking(env)
  {
    var c := AnotherCandidate(env, Target(Docker, ""));
    var probe := (x: Target) => Probe(true, true, true);
    assert Works(c, probe(c));
    assert PlanOutcome(PlanOf(env), env, Steady(probe), [], {}, Err(PlanOf(env).error), [], {});
  }

  lemma TargetIsFinal(env: Env)
    requires PlanOf(env).Resolve? || PlanOf(env).OpenOnly?
    ensures !FindsAnyWorking(env)
  {
    var t := PlanOf(env).target;
    var c := AnotherCandidate(env, t);
    var probe := (x: Target) => Probe(x != t, true, true);
    assert Works(c, probe(c));
    assert [] + [t] == [t];
    assert PlanOutcome(PlanOf(env), env, Steady(probe), [], {}, Err(OpenFailed), [t], {});
  }

  lemma SelectionIsFinal(env: Env)
    requires PlanOf(env) != Search
    ensures !FindsAnyWorking(env)
  {
    if PlanOf(env).Refuse? {
      RefusalIsFinal(env);
    } else {
      TargetIsFinal(env);
    }
  }

  // It holds exactly when nothing is configured: any selection is final, whether it fails to load, to open or to
  // answer.
  lemma FindsAnyWorkingIff(env: Env)
    ensures FindsAnyWorking(env) <==> NothingConfigured(env)
  {
    assert PlanOf(env) == Search <==> NothingConfigured(env);
    if PlanOf(env) != Search {
      SelectionIsFinal(env);
    } else {
      forall probe, before, live, r: Result<nat, DetectError>, after, live', t |
        && PlanOutcome(PlanOf(env), env, Steady(probe), before, live, r, after, live')
        && t in Searchable(Candidates(env)) && Works(t, probe(t))
        ensures r.Ok?
      {
        var ts := Searchable(Candidates(env));
        var j :| 0 <= j < |ts| && ts[j] == t;
        SearchFindsFirst(Steady(probe), before, live, ts, r, after, live', j);
      }
    }
  }

  // Only DOCKER_HOST is set.
  function DockerHostEnv(host: string): Env {
    Env(None, None, true, host, true, "", "", "", _ => None, "", "", "", None)
  }

  // Both promises broken by one environment, DOCKER_HOST=tcp://10.0.0.1:2375. When nothing can be opened there, New
  // fails although the default socket has a working engine; when the engine there does not ping, New returns it.
  lemma DockerHostBreaksBoth()
    ensures var env, host := DockerHostEnv("tcp://10.0.0.1:2375"), Target(Docker, "tcp://10.0.0.1:2375");
            var socket := DockerCandidate(DOCKER_SOCKET, Docker).target;
            var down, deaf := (t: Target) => Probe(t != host, true, true), (t: Target) => Probe(true, false, true);
            && socket in Searchable(Candidates(env)) && Works(socket, down(socket))
            && PlanOutcome(PlanOf(env), env, Steady(down), [], {}, Err(OpenFailed), [host], {})
            && PlanOutcome(PlanOf(env), env, Steady(deaf), [], {}, Ok(0), [host], {0})
            && !Pings(Steady(deaf), [host], 0)
  {
    var env, host := DockerHostEnv("tcp://10.0.0.1:2375"), Target(Docker, "tcp://10.0.0.1:2375");
    SearchableHas(Candidates(env), 0);
    assert host.host[0] != DockerCandidate(DOCKER_SOCKET, Docker).target.host[0];
    assert [] + [host] == [host];
  }

  // Nothing later in the ladder matters: neither CONTAINER_ENGINE nor the places where sockets are looked for.
  ghost predicate LaterSourcesIrrelevant(env: Env) {
    forall home, dir, engine, behave, before, live, r: Result<nat, DetectError>, after, live' ::
      var env' := env.(home := home, xdgRuntimeDir := dir, containerEngine := engine);
      PlanOutcome(PlanOf(env'), env', behave, before, live, r, after, live') <==>
      PlanOutcome(PlanOf(env), env, behave, before, live, r, after, live')
  }

  // With no engine to be opened anywhere, a search and a selection end differently.
  lemma SearchIsNotSelection(env: Env, env': Env)
    requires PlanOf(env) == Search && env'.kind.None? && !EnvironmentDecides(env') && EngineKindFromEnv(env').Some?
    ensures var behave, ts := (n: nat, t: Target) => Probe(false, false, false), Searchable(Candidates(env));
            && PlanOutcome(PlanOf(env), env, behave, [], {}, Err(NoEngine), ts, {})
            && !PlanOutcome(PlanOf(env'), env', behave, [], {}, Err(NoEngine), ts, {})
  {
    assert [] + Searchable(Candidates(env)) == Searchable(Candidates(env));
  }

  // Holds exactly when the kind is explicit or an environment endpoint is configured: then New never falls through.
  lemma NoFallThroughIff(env: Env)
    ensures LaterSourcesIrrelevant(env) <==> env.kind.Some? || EnvironmentDecides(env)
  {
    if env.kind.None? && !EnvironmentDecides(env) {
      var engine := if PlanOf(env) == Search then "docker" else "";
      var env' := env.(home := env.home, xdgRuntimeDir := env.xdgRuntimeDir, containerEngine := engine);
      if PlanOf(env) == Search {
        SearchIsNotSelection(env, env');
      } else {
        SearchIsNotSelection(env', env);
      }
    }
  }

  // Nothing happened but this error.
  ghost predicate Refused(error: DetectError, before: seq<Target>, live: set<nat>,
                          r: Result<nat, DetectError>, after: seq<Target>, live': set<nat>)
  {
    r == Err(error) && after == before && live' == live
  }

  ghost predicate AfterScheme(address: string, rest: string) {
    address == "unix://" + rest || (address == rest && !("unix://" <= address))
  }

  // The path of a containerd address: without a "unix://" in front, and the well-known socket when nothing is left.
  ghost predicate ContainerdPath(address: string, path: string) {
    exists rest :: AfterScheme(address, rest) && path == if rest == "" then "/run/containerd/containerd.sock" else rest
  }

  lemma ContainerdTargetIs(address: string)
    ensures ContainerdTarget(address).kind == Containerd && ContainerdPath(address, ContainerdTarget(address).host)
  {
    if "unix://" <= address {
      assert address == "unix://" + address[7..];
    }
    assert AfterScheme(address, TrimScheme(address));
  }

  // How an engine kind, given by option or by CONTAINER_ENGINE, is opened: Docker and Podman at the endpoint with their
  // info resolved, containerd at the endpoint or else CONTAINERD_ADDRESS and unprobed, anything else not at all.
  ghost predicate OpenedByKind(env: Env, kind: EngineKind, behave: (nat, Target) -> Probe, before: seq<Target>,
                               live: set<nat>, r: Result<nat, DetectError>, after: seq<Target>, live': set<nat>)
  {
    var endpoint := if env.endpointHost.Some? then env.endpointHost.value else "";
    match kind
    case Unknown(_) => Refused(Unsupported, before, live, r, after, live')
    case Containerd => exists path ::
      && ContainerdPath(if endpoint != "" then endpoint else env.containerdAddress, path)
      && OpenOutcome(behave, before, live, Target(Containerd, path), r, after, live')
    case _ =>
      if env.endpointTLS then ResolveOutcome(behave, before, live, Target(kind, endpoint), r, after, live')
      else Refused(TLSFailed, before, live, r, after, live')
  }

  // How a Docker context is opened: at the endpoint its metadata names, if it names one.
  ghost predicate OpenedByContext(env: Env, name: string, behave: (nat, Target) -> Probe, before: seq<Target>,
                                  live: set<nat>, r: Result<nat, DetectError>, after: seq<Target>, live': set<nat>)
  {
    match env.contexts(name)
    case Some(host) => ResolveOutcome(behave, before, live, Target(Docker, host), r, after, live')
    case None => Refused(ContextFailed, before, live, r, after, live')
  }

  // The whole ladder, rung by rung, in the documented order: an explicit kind; DOCKER_HOST, which DOCKER_CONTEXT
  // must not
  // accompany; CONTAINER_HOST; DOCKER_CONTEXT; the active context; CONTAINER_ENGINE; the sockets.
  ghost predicate FollowsLadder(env: Env, behave: (nat, Target) -> Probe, before: seq<Target>, live: set<nat>,
                                r: Result<nat, DetectError>, after: seq<Target>, live': set<nat>)
  {
    if env.kind.Some? then OpenedByKind(env, env.kind.value, behave, before, live, r, after, live')
    else if env.dockerHost != "" then
      if env.dockerContext != "" then Refused(MutuallyExclusive, before, live, r, after, live')
      else if !env.dockerHostTLS then Refused(TLSFailed, before, live, r, after, live')
      else ResolveOutcome(behave, before, live, Target(Docker, env.dockerHost), r, after, live')
    else if env.containerHost != "" then
      ResolveOutcome(behave, before, live, Target(Podman, env.containerHost), r, after, live')
    else if env.dockerContext != "" then OpenedByContext(env, env.dockerContext, behave, before, live, r, after, live')
    else if env.activeContext != "" then OpenedByContext(env, env.activeContext, behave, before, live, r, after, live')
    else if env.containerEngine == "docker" then OpenedByKind(env, Docker, behave, before, live, r, after, live')
    else if env.containerEngine == "podman" then OpenedByKind(env, Podman, behave, before, live, r, after, live')
    else if env.containerEngine ==
        "containerd" then OpenedByKind(env, Containerd, behave, before, live, r, after, live')
    else SearchOutcome(behave, before, live, DocumentedTargets(env), r, after, live')
  }

  lemma KindPlanOpens(env: Env, kind: EngineKind, behave: (nat, Target) -> Probe, before: seq<Target>, live: set<nat>,
                      r: Result<nat, DetectError>, after: seq<Target>, live': set<nat>)
    requires PlanOutcome(KindPlan(env, kind), env, behave, before, live, r, after, live')
    ensures OpenedByKind(env, kind, behave, before, live, r, after, live')
  {
    if kind == Containerd {
      ContainerdTargetIs(if env.endpointHost.Some? && env.endpointHost.value != "" then env.endpointHost.value
                         else env.containerdAddress);
    }
  }

  // The plan is the ladder.
  lemma LadderFollowed(env: Env, behave: (nat, Target) -> Probe, before: seq<Target>, live: set<nat>,
                       r: Result<nat, DetectError>, after: seq<Target>, live': set<nat>)
    requires PlanOutcome(PlanOf(env), env, behave, before, live, r, after, live')
    ensures FollowsLadder(env, behave, before, live, r, after, live')
  {
    SearchesDocumented(env);
    if env.kind.Some? {
      KindPlanOpens(env, env.kind.value, behave, before, live, r, after, live');
    } else if !EnvironmentDecides(env) && EngineKindFromEnv(env).Some? {
      KindPlanOpens(env, EngineKindFromEnv(env).value, behave, before, live, r, after, live');
    }
  }

  // New. On every path the clients opened and not closed are exactly the returned one, or none on an error.
  method New(m: Machine, env: Env) returns (r: Result<nat, DetectError>)
    requires m.Valid()
    modifies m
    ensures m.Valid()
    ensures m.live == if r.Ok? then old(m.live) + {r.value} else old(m.live)
    ensures r.Ok? ==> r.value !in old(m.live)
    ensures FollowsLadder(env, m.behave, old(m.attempts), old(m.live), r, m.attempts, m.live)
    ensures PlanOutcome(PlanOf(env), env, m.behave, old(m.attempts), old(m.live), r, m.attempts, m.live)
  {
    if env.kind.Some? {
      r := OpenKind(m, env, env.kind.value);
    } else {
      var fromEnv := EnvEndpoint(m, env);
      var kind := EngineKindFromEnv(env);
      if fromEnv.Some? {
        r := fromEnv.value;
      } else if kind.Some? {
        r := OpenKind(m, env, kind.value);
      } else {
        r := AutoDetect(m, env);
      }
    }
    LadderFollowed(env, m.behave, old(m.attempts), old(m.live), r, m.attempts, m.live);
  }

  // An engine that opens and pings and, when spoken to over the Docker API, answers the info call.
  ghost predicate Usable(t: Target, p: Probe) {
    p.opens && p.pings && (t.kind == Containerd || p.info)
  }

  lemma FirstUsable(behave: (nat, Target) -> Probe, before: seq<Target>, live: set<nat>, ts: seq<Target>,
                    r: Result<nat, DetectError>, after: seq<Target>, live': set<nat>, j: nat)
    requires SearchOutcome(behave, before, live, ts, r, after, live') && j < |ts|
    ensures r == Ok(|before| + j) <==>
            Usable(ts[j], behave(|before| + j, ts[j]))
            && forall i | 0 <= i < j :: !Usable(ts[i], behave(|before| + i, ts[i]))
  {
    assert NoneWorks(behave, |before|, ts[..j]) <==>
        forall i | 0 <= i < j :: !Works(ts[i], behave(|before| + i, ts[i])) by {
      assert forall i | 0 <= i < j :: ts[..j][i] == ts[i];
    }
    if Works(ts[j], behave(|before| + j, ts[j])) {
      SearchFindsFirst(behave, before, live, ts, r, after, live', j);
    }
  }

  // With nothing configured the documented priority decides: the j-th socket's engine is returned exactly when it works
  // and none before it does. In particular a working Docker socket is the only one ever opened.
  lemma DocumentedPriority(env: Env, behave: (nat, Target) -> Probe, before: seq<Target>, live: set<nat>,
                           r: Result<nat, DetectError>, after: seq<Target>, live': set<nat>)
    requires env.kind.None? && env.dockerHost == env.containerHost == env.dockerContext == env.activeContext == ""
    requires env.containerEngine != "docker" && env.containerEngine != "podman" && env.containerEngine != "containerd"
    requires PlanOutcome(PlanOf(env), env, behave, before, live, r, after, live')
    ensures var ts := DocumentedTargets(env);
            forall j | 0 <= j < |ts| :: r == Ok(|before| + j) <==>
              Usable(ts[j], behave(|before| + j, ts[j]))
              && forall i | 0 <= i < j :: !Usable(ts[i], behave(|before| + i, ts[i]))
    ensures var docker := Target(Docker, "unix:///var/run/docker.sock");
            Usable(docker, behave(|before|, docker)) ==> r == Ok(|before|) && after == before + [docker]
  {
    SearchesDocumented(env);
    var ts := DocumentedTargets(env);
    forall j: nat | j < |ts| {
      FirstUsable(behave, before, live, ts, r, after, live', j);
    }
    assert ts[..1] == [ts[0]];
  }
}
