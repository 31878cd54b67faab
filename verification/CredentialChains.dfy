/** The two precedence chains of credentials.go over a world of credential helpers: Docker's, which never falls
    through, and Podman's, which does. */
module CredentialChains {
  import opened Outcomes
  import opened Credentials
  import opened Selections
  import opened AuthFiles

  // The helper binaries, taken to answer the same question the same way during one call. list is None when
  // listing fails and empty when the binary is absent or exits with an error.
  datatype Helpers = Helpers(get: (string, string) -> Reply, list: string -> Option<set<string>>)

  // registries.conf files: the configured helpers, or None when the file cannot be read or parsed.
  type ConfFiles = Path -> Option<seq<string>>

  const SENTINEL := "containers-auth.json"

  function Ask(world: Helpers, helper: string, registry: string): Lookup {
    HelperGet(world.get(helper, registry))
  }

  function Found(l: Lookup): Option<AuthEntry> {
    if l.Hit? then Some(l.entry) else None
  }

  // An entry such as {} only marks that a helper knows the registry; a bare password counts as blank too.
  predicate Blank(raw: RawAuthEntry) {
    raw.auth == [] && raw.username == [] && raw.identityToken == [] && raw.registryToken == []
  }

  function InlineAnswer(auths: map<string, RawAuthEntry>, registry: string): Option<AuthEntry> {
    if registry !in auths || Blank(auths[registry]) then None
    else Some(DecodeInlineEntry(registry, auths[registry]))
  }

  // What a registry has in Docker's chain.
  function DockerAnswer(world: Helpers, registry: string, cfg: RegistryConfig): Option<AuthEntry> {
    if registry in cfg.credHelpers then Found(Ask(world, cfg.credHelpers[registry], registry))
    else if cfg.credsStore != "" then Found(Ask(world, cfg.credsStore, registry))
    else InlineAnswer(cfg.auths, registry)
  }

  function Listed(world: Helpers, helper: string): set<string> {
    match world.list(helper)
    case Some(registries) => registries
    case None => {}
  }

  function DockerRegistries(world: Helpers, cfg: RegistryConfig): set<string> {
    cfg.auths.Keys + cfg.credHelpers.Keys + (if cfg.credsStore != "" then Listed(world, cfg.credsStore) else {})
  }

  ghost function DockerResult(world: Helpers, cfg: RegistryConfig): map<string, AuthEntry> {
    map reg | reg in DockerRegistries(world, cfg) && DockerAnswer(world, reg, cfg).Some?
      :: DockerAnswer(world, reg, cfg).value
  }

  // The helper answers for the registry, with entry e.
  ghost predicate HelperGives(world: Helpers, helper: string, registry: string, e: AuthEntry) {
    EntryOfReply(world.get(helper, registry), e)
  }

  // The auth file has an entry for the registry that is more than a marker or a bare password, and it stands for e.
  ghost predicate InlineGives(auths: map<string, RawAuthEntry>, registry: string, e: AuthEntry) {
    && registry in auths
    && var raw := auths[registry];
    && (raw.auth != [] || raw.username != [] || raw.identityToken != [] || raw.registryToken != [])
    && EntryOfRaw(registry, raw, e)
  }

  lemma AnswersMean(world: Helpers, helper: string, auths: map<string, RawAuthEntry>, registry: string)
    ensures forall e :: Found(Ask(world, helper, registry)) == Some(e) <==> HelperGives(world, helper, registry, e)
    ensures forall e :: InlineAnswer(auths, registry) == Some(e) <==> InlineGives(auths, registry, e)
  {
    HelperGetMeans(world.get(helper, registry));
    if registry in auths {
      forall e {
        InlineMeans(registry, auths[registry], e);
      }
    }
  }

  // Docker's chain for one registry: its own helper has the only word, else the global store has, else the auth file.
  ghost predicate DockerGives(world: Helpers, cfg: RegistryConfig, registry: string, e: AuthEntry) {
    if registry in cfg.credHelpers then HelperGives(world, cfg.credHelpers[registry], registry, e)
    else if cfg.credsStore != "" then HelperGives(world, cfg.credsStore, registry, e)
    else InlineGives(cfg.auths, registry, e)
  }

  // The registries Docker looks at: those the config names and those the global store lists.
  ghost predicate DockerKnows(world: Helpers, cfg: RegistryConfig, registry: string) {
    || registry in cfg.auths || registry in cfg.credHelpers
    || (cfg.credsStore != "" && world.list(cfg.credsStore).Some? && registry in world.list(cfg.credsStore).value)
  }

  lemma DockerAnswerMeans(world: Helpers, cfg: RegistryConfig, registry: string)
    ensures forall e :: DockerAnswer(world, registry, cfg) == Some(e) <==> DockerGives(world, cfg, registry, e)
  {
    var helper := if registry in cfg.credHelpers then cfg.credHelpers[registry] else cfg.credsStore;
    AnswersMean(world, helper, cfg.auths, registry);
  }

  // The credentials Docker's chain resolves from a config are exactly these.
  ghost predicate ResolvesDocker(world: Helpers, cfg: RegistryConfig, result: map<string, AuthEntry>) {
    forall reg, e :: reg in result && result[reg] == e <==>
            DockerKnows(world, cfg, reg) && DockerGives(world, cfg, reg, e)
  }

  lemma DockerResultResolves(world: Helpers, cfg: RegistryConfig)
    ensures ResolvesDocker(world, cfg, DockerResult(world, cfg))
  {
    forall reg, e
      ensures reg in DockerResult(world, cfg) && DockerResult(world, cfg)[reg] == e <==>
              DockerKnows(world, cfg, reg) && DockerGives(world, cfg, reg, e)
    {
      DockerAnswerMeans(world, cfg, reg);
    }
  }

  // The config.json Docker reads: under DOCKER_CONFIG, or under ~/.docker.
  ghost function DockerFile(fs: FileSystem, env: CredEnv): FileData {
    var dir := if env.dockerConfig != "" then Root(env.dockerConfig) else Join(Root(env.homeDir), ".docker");
    fs(Join(dir, "config.json"))
  }

  // resolveDockerRegistry: a helper of its own or the global store has the only word; an inline entry counts when there
  // is neither, and unless it is blank.
  method ResolveDockerRegistry(world: Helpers, registry: string, cfg: RegistryConfig) returns (r: Option<AuthEntry>)
    ensures registry in cfg.credHelpers ==>
              r == Found(Ask(world, cfg.credHelpers[registry], registry))
    ensures registry !in cfg.credHelpers && cfg.credsStore != "" ==>
              r == Found(Ask(world, cfg.credsStore, registry))
    ensures registry !in cfg.credHelpers && cfg.credsStore == "" ==>
              r == if registry in cfg.auths && !Blank(cfg.auths[registry])
                   then Some(DecodeInlineEntry(registry, cfg.auths[registry])) else None
    ensures r == DockerAnswer(world, registry, cfg)
    ensures forall e :: r == Some(e) <==> DockerGives(world, cfg, registry, e)
  {
    DockerAnswerMeans(world, cfg, registry);
    if registry in cfg.credHelpers {
      match HelperGet(world.get(cfg.credHelpers[registry], registry)) {
        case Hit(entry) => return Some(entry);
        case Miss => return None;
        case Failed => return None;
      }
    }
    if cfg.credsStore != "" {
      match HelperGet(world.get(cfg.credsStore, registry)) {
        case Hit(entry) => return Some(entry);
        case Miss => return None;
        case Failed => return None;
      }
    }
    if registry !in cfg.auths {
      return None;
    }
    var raw := cfg.auths[registry];
    if raw.auth == [] && raw.username == [] && raw.identityToken == [] && raw.registryToken == [] {
      return None;
    }
    return Some(DecodeInlineEntry(registry, raw));
  }

  // resolveDockerCredentials: fails only on a config that cannot be read or parsed, and otherwise does not depend on
  // map
  // order. A missing config names nothing.
  method ResolveDockerCredentials(fs: FileSystem, world: Helpers, env: CredEnv)
    returns (r: Result<map<string, AuthEntry>, ()>)
    ensures r.Err? <==> ParseAuthFile(fs, AuthFilePath(DockerConfigFile(env), false)).None?
    ensures r.Ok? ==>
              r.value == DockerResult(world, ParseAuthFile(fs, AuthFilePath(DockerConfigFile(env), false)).value)
    ensures var file := DockerFile(fs, env);
            && (r.Err? <==> file.Unreadable? || (file.Contents? && file.wrapped.None?))
            && (r.Ok? && file.Missing? ==> r.value == map[])
            && (r.Ok? && file.Contents? ==> ResolvesDocker(world, file.wrapped.value, r.value))
  {
    var parsed := ParseAuthFile(fs, AuthFilePath(DockerConfigFile(env), false));
    if parsed.None? {
      return Err(());
    }
    var cfg := parsed.value;
    var registries := cfg.auths.Keys + cfg.credHelpers.Keys;
    if cfg.credsStore != "" {
      registries := registries + Listed(world, cfg.credsStore);
    }
    var result: map<string, AuthEntry> := map[];
    var todo := registries;
    while todo != {}
      invariant todo <= registries
      invariant forall reg :: reg in result <==> reg in registries - todo && DockerAnswer(world, reg, cfg).Some?
      invariant forall reg | reg in result :: result[reg] == DockerAnswer(world, reg, cfg).value
    {
      var reg :| reg in todo;
      todo := todo - {reg};
      var entry := ResolveDockerRegistry(world, reg, cfg);
      if entry.Some? {
        result := result[reg := entry.value];
      }
    }
    DockerResultResolves(world, cfg);
    assert result == DockerResult(world, cfg);
    return Ok(result);
  }

  // The helpers Podman asks about a registry, in order: its own, then the global ones.
  function Sources(cfg: RegistryConfig, globalHelpers: seq<string>, registry: string): seq<string> {
    (if registry in cfg.credHelpers then [cfg.credHelpers[registry]] else []) + globalHelpers
  }

  // Source i answers and no earlier one does; a failing helper counts as no answer.
  ghost predicate FirstHit(world: Helpers, sources: seq<string>, registry: string, i: nat) {
    && i < |sources|
    && Ask(world, sources[i], registry).Hit?
    && forall j | 0 <= j < i :: !Ask(world, sources[j], registry).Hit?
  }

  ghost predicate NoHit(world: Helpers, sources: seq<string>, registry: string) {
    forall j | 0 <= j < |sources| :: !Ask(world, sources[j], registry).Hit?
  }

  function FirstAnswer(world: Helpers, sources: seq<string>, registry: string): Option<AuthEntry> {
    if sources == [] then None
    else if Ask(world, sources[0], registry).Hit? then Found(Ask(world, sources[0], registry))
    else FirstAnswer(world, sources[1..], registry)
  }

  lemma {:induction false} FirstAnswerIs(world: Helpers, sources: seq<string>, registry: string, i: nat)
    requires FirstHit(world, sources, registry, i)
    ensures FirstAnswer(world, sources, registry) == Some(Ask(world, sources[i], registry).entry)
  {
    if i > 0 {
      assert FirstHit(world, sources[1..], registry, i - 1) by {
        assert forall j | 0 <= j < i - 1 :: sources[1..][j] == sources[j + 1];
      }
      FirstAnswerIs(world, sources[1..], registry, i - 1);
    }
  }

  lemma {:induction false} NoAnswer(world: Helpers, sources: seq<string>, registry: string)
    requires NoHit(world, sources, registry)
    ensures FirstAnswer(world, sources, registry) == None
  {
    if sources != [] {
      assert forall j | 0 <= j < |sources| - 1 :: sources[1..][j] == sources[j + 1];
      NoAnswer(world, sources[1..], registry);
    }
  }

  function PodmanAnswer(world: Helpers, registry: string, cfg: RegistryConfig,
                        globalHelpers: seq<string>): Option<AuthEntry> {
    match FirstAnswer(world, Sources(cfg, globalHelpers, registry), registry)
    case Some(entry) => Some(entry)
    case None => InlineAnswer(cfg.auths, registry)
  }

  // Podman's chain for one registry: its own helper if that answers, else the first global helper that answers, else
  // the
  // auth files.
  ghost predicate PodmanGives(world: Helpers, cfg: RegistryConfig, globalHelpers: seq<string>, registry: string,
                              e: AuthEntry) {
    if registry in cfg.credHelpers && world.get(cfg.credHelpers[registry], registry).Answer? then
      HelperGives(world, cfg.credHelpers[registry], registry, e)
    else if exists i :: 0 <= i < |globalHelpers| && world.get(globalHelpers[i], registry).Answer? then
      exists i :: 0 <= i < |globalHelpers| && HelperGives(world, globalHelpers[i], registry, e)
                  && forall j | 0 <= j < i :: !world.get(globalHelpers[j], registry).Answer?
    else InlineGives(cfg.auths, registry, e)
  }

  // The registries Podman looks at: those the merged config names and those any global helper lists.
  ghost predicate PodmanKnows(world: Helpers, cfg: RegistryConfig, globalHelpers: seq<string>, registry: string) {
    || registry in cfg.auths || registry in cfg.credHelpers
    || exists i :: 0 <= i < |globalHelpers| && world.list(globalHelpers[i]).Some?
                   && registry in world.list(globalHelpers[i]).value
  }

  lemma {:induction false} FirstAnswerMeans(world: Helpers, helpers: seq<string>, registry: string, e: AuthEntry)
    ensures FirstAnswer(world, helpers, registry) == Some(e) <==>
            exists i :: 0 <= i < |helpers| && HelperGives(world, helpers[i], registry, e)
                        && forall j | 0 <= j < i :: !world.get(helpers[j], registry).Answer?
    ensures FirstAnswer(world, helpers, registry) == None <==>
            forall i | 0 <= i < |helpers| :: !world.get(helpers[i], registry).Answer?
  {
    if helpers != [] {
      HelperGetMeans(world.get(helpers[0], registry));
      var rest := helpers[1..];
      assert forall i | 0 <= i < |rest| :: rest[i] == helpers[i + 1];
      FirstAnswerMeans(world, rest, registry, e);
    }
  }

  lemma PodmanAnswerMeans(world: Helpers, cfg: RegistryConfig, globalHelpers: seq<string>, registry: string,
                          e: AuthEntry)
    ensures PodmanAnswer(world, registry, cfg, globalHelpers) == Some(e) <==>
            PodmanGives(world, cfg, globalHelpers, registry, e)
  {
    AnswersMean(world, "", cfg.auths, registry);
    FirstAnswerMeans(world, globalHelpers, registry, e);
    if registry in cfg.credHelpers {
      AnswersMean(world, cfg.credHelpers[registry], cfg.auths, registry);
      HelperGetMeans(world.get(cfg.credHelpers[registry], registry));
      var sources := Sources(cfg, globalHelpers, registry);
      assert sources == [cfg.credHelpers[registry]] + globalHelpers && sources[1..] == globalHelpers;
    } else {
      assert Sources(cfg, globalHelpers, registry) == globalHelpers;
    }
  }

  // resolvePodmanRegistry: the first helper that answers, else the inline entry unless it is blank.
  method ResolvePodmanRegistry(world: Helpers, registry: string, cfg: RegistryConfig, globalHelpers: seq<string>)
    returns (r: Option<AuthEntry>)
    ensures var sources := Sources(cfg, globalHelpers, registry);
            && (forall i: nat | FirstHit(world, sources, registry, i) ::
                r == Some(Ask(world, sources[i], registry).entry))
            && (NoHit(world, sources, registry) ==> r == InlineAnswer(cfg.auths, registry))
    ensures r == PodmanAnswer(world, registry, cfg, globalHelpers)
    ensures forall e :: r == Some(e) <==> PodmanGives(world, cfg, globalHelpers, registry, e)
  {
    forall e {
      PodmanAnswerMeans(world, cfg, globalHelpers, registry, e);
    }
    ghost var sources := Sources(cfg, globalHelpers, registry);
    ghost var own := |sources| - |globalHelpers|;
    if registry in cfg.credHelpers {
      var l := Ask(world, cfg.credHelpers[registry], registry);
      if l.Hit? {
        FirstAnswerIs(world, sources, registry, 0);
        return Some(l.entry);
      }
    }
    for i := 0 to |globalHelpers|
      invariant forall j | 0 <= j < own + i :: !Ask(world, sources[j], registry).Hit?
    {
      var l := Ask(world, globalHelpers[i], registry);
      assert sources[own + i] == globalHelpers[i];
      if l.Failed? {
        continue;
      }
      if l.Hit? {
        FirstAnswerIs(world, sources, registry, own + i);
        assert forall k: nat | FirstHit(world, sources, registry, k) :: k == own + i;
        return Some(l.entry);
      }
    }
    NoAnswer(world, sources, registry);
    if registry !in cfg.auths {
      return None;
    }
    var raw := cfg.auths[registry];
    if raw.auth == [] && raw.username == [] && raw.identityToken == [] && raw.registryToken == [] {
      return None;
    }
    return Some(DecodeInlineEntry(registry, raw));
  }

  ghost function ListedByAny(world: Helpers, helpers: seq<string>): set<string> {
    if helpers == [] then {}
    else ListedByAny(world, helpers[..|helpers| - 1]) + Listed(world, helpers[|helpers| - 1])
  }

  lemma {:induction false} ListedByAnyMeans(world: Helpers, helpers: seq<string>, registry: string)
    ensures registry in ListedByAny(world, helpers) <==>
            exists i :: 0 <= i < |helpers| && world.list(helpers[i]).Some? && registry in world.list(helpers[i]).value
  {
    if helpers != [] {
      var n := |helpers| - 1;
      ListedByAnyMeans(world, helpers[..n], registry);
      assert forall i | 0 <= i < n :: helpers[..n][i] == helpers[i];
    }
  }

  ghost function PodmanRegistries(world: Helpers, cfg: RegistryConfig, globalHelpers: seq<string>): set<string> {
    cfg.auths.Keys + cfg.credHelpers.Keys + ListedByAny(world, globalHelpers)
  }

  method CollectPodmanRegistries(world: Helpers, cfg: RegistryConfig, globalHelpers: seq<string>)
    returns (registries: set<string>)
    ensures registries == PodmanRegistries(world, cfg, globalHelpers)
    ensures forall reg :: reg in registries <==> PodmanKnows(world, cfg, globalHelpers, reg)
  {
    registries := cfg.auths.Keys + cfg.credHelpers.Keys;
    for i := 0 to |globalHelpers|
      invariant registries == cfg.auths.Keys + cfg.credHelpers.Keys + ListedByAny(world, globalHelpers[..i])
    {
      assert globalHelpers[..i + 1][..i] == globalHelpers[..i];
      var listed := world.list(globalHelpers[i]);
      if listed.None? {
        continue;
      }
      registries := registries + listed.value;
    }
    assert globalHelpers[..|globalHelpers|] == globalHelpers;
    forall reg {
      ListedByAnyMeans(world, globalHelpers, reg);
    }
  }

  function PodmanRegistriesConfPaths(env: CredEnv): seq<Path> {
    [Join(Join(XdgConfigHome(env), "containers"), "registries.conf"), Root("/etc/containers/registries.conf")]
  }

  function WithoutSentinel(helpers: seq<string>): seq<string> {
    if helpers == [] then []
    else
      WithoutSentinel(helpers[..|helpers| - 1]) +
      (if helpers[|helpers| - 1] != SENTINEL then [helpers[|helpers| - 1]] else [])
  }

  // The helpers file i contributes; an unreadable file contributes none.
  function ConfHelpers(conf: ConfFiles, path: Path): seq<string> {
    match conf(path)
    case Some(helpers) => WithoutSentinel(helpers)
    case None => []
  }

  // The places of the helpers that are not the sentinel.
  ghost function HelperPlaces(listed: seq<string>): set<nat> {
    set i: nat | i < |listed| && listed[i] != "containers-auth.json"
  }

  ghost predicate KeepsAt(listed: seq<string>, idx: seq<nat>, kept: seq<string>) {
    && Lists(idx, HelperPlaces(listed)) && |idx| == |kept|
    && forall j | 0 <= j < |idx| :: idx[j] < |listed| && kept[j] == listed[idx[j]]
  }

  // kept is listed without the sentinel, in order.
  ghost predicate KeepsHelpers(listed: seq<string>, kept: seq<string>) {
    exists idx :: KeepsAt(listed, idx, kept)
  }

  lemma HelperPlacesSnoc(listed: seq<string>, h: string)
    ensures HelperPlaces(listed + [h]) ==
            HelperPlaces(listed) + (if h != "containers-auth.json" then {|listed|} else {})
  {
  }

  lemma {:induction false} KeepsWithoutSentinel(listed: seq<string>) returns (idx: seq<nat>)
    ensures KeepsAt(listed, idx, WithoutSentinel(listed))
  {
    if listed == [] {
      idx := [];
    } else {
      var before, h := listed[..|listed| - 1], listed[|listed| - 1];
      assert listed == before + [h];
      idx := KeepsWithoutSentinel(before);
      HelperPlacesSnoc(before, h);
      if h != SENTINEL {
        ListsSnoc(idx, HelperPlaces(before), |before|);
        idx := idx + [|before|];
      }
    }
  }

  lemma KeepsNothingIff(listed: seq<string>, idx: seq<nat>, kept: seq<string>)
    requires KeepsAt(listed, idx, kept)
    ensures kept == [] <==> forall h | h in listed :: h == "containers-auth.json"
  {
    if kept == [] {
      forall h | h in listed ensures h == "containers-auth.json" {
        var i :| 0 <= i < |listed| && listed[i] == h;
        assert i !in idx;
      }
    } else {
      assert idx[0] in idx && listed[idx[0]] in listed;
    }
  }

  // The user's registries.conf decides if it names a helper other than the sentinel, else the system's does.
  ghost predicate GlobalHelpersAre(conf: ConfFiles, env: CredEnv, helpers: seq<string>) {
    var configDir := if env.xdgConfigHome != "" then Root(env.xdgConfigHome) else Join(Root(env.homeDir), ".config");
    var user := conf(Join(Join(configDir, "containers"), "registries.conf"));
    var system := conf(Root("/etc/containers/registries.conf"));
    if user.Some? && exists h :: h in user.value && h != "containers-auth.json" then KeepsHelpers(user.value, helpers)
    else if system.Some? then KeepsHelpers(system.value, helpers)
    else helpers == []
  }

  lemma ConfHelpersKept(conf: ConfFiles, path: Path)
    ensures conf(path).None? ==> ConfHelpers(conf, path) == []
    ensures conf(path).Some? ==> KeepsHelpers(conf(path).value, ConfHelpers(conf, path))
    ensures conf(path).Some? ==>
              (ConfHelpers(conf, path) == [] <==> forall h | h in conf(path).value :: h == "containers-auth.json")
  {
    if conf(path).Some? {
      var idx := KeepsWithoutSentinel(conf(path).value);
      KeepsNothingIff(conf(path).value, idx, ConfHelpers(conf, path));
    }
  }

  // The helpers of the first file that has any.
  function FirstConfHelpers(conf: ConfFiles, env: CredEnv): seq<string> {
    var paths := PodmanRegistriesConfPaths(env);
    if ConfHelpers(conf, paths[0]) != [] then ConfHelpers(conf, paths[0]) else ConfHelpers(conf, paths[1])
  }

  lemma FirstConfHelpersAre(conf: ConfFiles, env: CredEnv)
    ensures GlobalHelpersAre(conf, env, FirstConfHelpers(conf, env))
  {
    var paths := PodmanRegistriesConfPaths(env);
    ConfHelpersKept(conf, paths[0]);
    ConfHelpersKept(conf, paths[1]);
  }

  // The inner loop of podmanExternalHelpers.
  method DropSentinel(listed: seq<string>) returns (helpers: seq<string>)
    ensures helpers == WithoutSentinel(listed)
  {
    helpers := [];
    for j := 0 to |listed|
      invariant helpers == WithoutSentinel(listed[..j])
    {
      assert listed[..j + 1][..j] == listed[..j];
      if listed[j] != SENTINEL {
        helpers := helpers + [listed[j]];
      }
    }
    assert listed[..|listed|] == listed;
  }

  lemma {:induction false} SentinelDropped(listed: seq<string>)
    ensures SENTINEL !in WithoutSentinel(listed)
  {
    if listed != [] {
      SentinelDropped(listed[..|listed| - 1]);
    }
  }

  // podmanExternalHelpers: the first registries.conf with a helper other than the sentinel decides alone.
  method PodmanExternalHelpers(conf: ConfFiles, env: CredEnv) returns (helpers: seq<string>)
    ensures helpers == FirstConfHelpers(conf, env) && GlobalHelpersAre(conf, env, helpers)
    ensures "containers-auth.json" !in helpers
  {
    FirstConfHelpersAre(conf, env);
    var paths := PodmanRegistriesConfPaths(env);
    for i := 0 to |paths|
      invariant forall j | 0 <= j < i :: ConfHelpers(conf, paths[j]) == []
    {
      var cfg := conf(paths[i]);
      if cfg.None? {
        continue;
      }
      helpers := DropSentinel(cfg.value);
      SentinelDropped(cfg.value);
      if |helpers| > 0 {
        return helpers;
      }
    }
    return [];
  }

  ghost function PodmanResult(world: Helpers, cfg: RegistryConfig, globalHelpers: seq<string>): map<string, AuthEntry> {
    map reg | reg in PodmanRegistries(world, cfg, globalHelpers) && PodmanAnswer(world, reg, cfg, globalHelpers).Some?
      :: PodmanAnswer(world, reg, cfg, globalHelpers).value
  }

  ghost predicate MergedConfig(fs: FileSystem, env: CredEnv, cfg: RegistryConfig) {
    && cfg.credsStore == ""
    && FirstWins(AuthsOf(Readable(fs, PodmanAuthPaths(env))), cfg.auths)
    && FirstWins(HelpersOf(Readable(fs, PodmanAuthPaths(env))), cfg.credHelpers)
  }

  // reg has entry e in the credentials Podman resolves.
  ghost predicate PodmanHas(world: Helpers, cfg: RegistryConfig, globalHelpers: seq<string>, reg: string,
                            e: AuthEntry) {
    PodmanKnows(world, cfg, globalHelpers, reg) && PodmanGives(world, cfg, globalHelpers, reg, e)
  }

  // The credentials Podman's chain resolves from the merged config are exactly these.
  ghost predicate ResolvesPodman(world: Helpers, cfg: RegistryConfig, globalHelpers: seq<string>,
                                 result: map<string, AuthEntry>) {
    forall reg, e :: reg in result && result[reg] == e <==> PodmanHas(world, cfg, globalHelpers, reg, e)
  }

  lemma PodmanResultHas(world: Helpers, cfg: RegistryConfig, globalHelpers: seq<string>, reg: string, e: AuthEntry)
    ensures var result := PodmanResult(world, cfg, globalHelpers);
            reg in result && result[reg] == e <==> PodmanHas(world, cfg, globalHelpers, reg, e)
  {
    ListedByAnyMeans(world, globalHelpers, reg);
    PodmanAnswerMeans(world, cfg, globalHelpers, reg, e);
    assert reg in PodmanRegistries(world, cfg, globalHelpers) <==> PodmanKnows(world, cfg, globalHelpers, reg);
  }

  lemma PodmanResultResolves(world: Helpers, cfg: RegistryConfig, globalHelpers: seq<string>)
    ensures ResolvesPodman(world, cfg, globalHelpers, PodmanResult(world, cfg, globalHelpers))
  {
    forall reg, e {
      PodmanResultHas(world, cfg, globalHelpers, reg, e);
    }
  }

  // The loop of resolvePodmanCredentials over the collected registries, in any order.
  method ResolveRegistries(world: Helpers, cfg: RegistryConfig, globalHelpers: seq<string>, registries: set<string>)
    returns (result: map<string, AuthEntry>)
    requires registries == PodmanRegistries(world, cfg, globalHelpers)
    ensures result == PodmanResult(world, cfg, globalHelpers)
  {
    result := map[];
    var todo := registries;
    while todo != {}
      invariant todo <= registries
      invariant forall reg :: reg in result <==>
              reg in registries - todo && PodmanAnswer(world, reg, cfg, globalHelpers).Some?
      invariant forall reg | reg in result :: result[reg] == PodmanAnswer(world, reg, cfg, globalHelpers).value
    {
      var reg :| reg in todo;
      todo := todo - {reg};
      var entry := ResolvePodmanRegistry(world, reg, cfg, globalHelpers);
      if entry.Some? {
        result := result[reg := entry.value];
      }
    }
  }

  // resolvePodmanCredentials: the pointwise chain over the merged cascade, whatever the map orders.
  method ResolvePodmanCredentials(fs: FileSystem, conf: ConfFiles, world: Helpers, env: CredEnv)
    returns (result: map<string, AuthEntry>, cfg: RegistryConfig, globalHelpers: seq<string>)
    ensures MergedConfig(fs, env, cfg) && forall k :: FollowsCascade(fs, env, cfg.auths, cfg.credHelpers, k)
    ensures globalHelpers == FirstConfHelpers(conf, env) && GlobalHelpersAre(conf, env, globalHelpers)
    ensures result == PodmanResult(world, cfg, globalHelpers) && ResolvesPodman(world, cfg, globalHelpers, result)
  {
    var auths, helpers := MergePodmanAuthFiles(fs, env);
    globalHelpers := PodmanExternalHelpers(conf, env);
    cfg := RegistryConfig(auths, "", helpers);
    var registries := CollectPodmanRegistries(world, cfg, globalHelpers);
    result := ResolveRegistries(world, cfg, globalHelpers, registries);
    PodmanResultResolves(world, cfg, globalHelpers);
  }

  // The merged cascade is one config, not one per iteration order.
  lemma MergedConfigUnique(fs: FileSystem, env: CredEnv, a: RegistryConfig, b: RegistryConfig)
    requires MergedConfig(fs, env, a) && MergedConfig(fs, env, b)
    ensures a == b
  {
    var cfgs := Readable(fs, PodmanAuthPaths(env));
    FirstWinsUnique(AuthsOf(cfgs), a.auths, b.auths);
    FirstWinsUnique(HelpersOf(cfgs), a.credHelpers, b.credHelpers);
  }

  lemma {:induction false} FirstAnswerConsistent(world: Helpers, sources: seq<string>, registry: string)
    ensures FirstAnswer(world, sources, registry).Some? ==>
              var e := FirstAnswer(world, sources, registry).value; Consistent(e) && TokenExcludesPassword(e)
  {
    if sources != [] {
      if Ask(world, sources[0], registry).Hit? {
        HelperConsistent(world.get(sources[0], registry));
      } else {
        FirstAnswerConsistent(world, sources[1..], registry);
      }
    }
  }

  // Every entry either chain returns has an auth field whenever it has a user name or password, and that field
  // decodes to exactly those unless the user name holds a colon.
  lemma ResultsConsistent(world: Helpers, cfg: RegistryConfig, globalHelpers: seq<string>, reg: string)
    ensures reg in DockerResult(world, cfg) ==> Consistent(DockerResult(world, cfg)[reg])
    ensures reg in PodmanResult(world, cfg, globalHelpers) ==> Consistent(PodmanResult(world, cfg, globalHelpers)[reg])
  {
    if reg in cfg.auths {
      InlineConsistent(reg, cfg.auths[reg]);
    }
    if reg in cfg.credHelpers && Ask(world, cfg.credHelpers[reg], reg).Hit? {
      HelperConsistent(world.get(cfg.credHelpers[reg], reg));
    }
    if Ask(world, cfg.credsStore, reg).Hit? {
      HelperConsistent(world.get(cfg.credsStore, reg));
    }
    FirstAnswerConsistent(world, Sources(cfg, globalHelpers, reg), reg);
  }

  // An entry of either result that has a token next to a user name or password is the inline entry of a registry whose
  // auth file gives both; no helper is the source of one.
  lemma TokenBreachIsInline(world: Helpers, cfg: RegistryConfig, globalHelpers: seq<string>, reg: string, e: AuthEntry)
    requires !TokenExcludesPassword(e)
    requires DockerAnswer(world, reg, cfg) == Some(e) || PodmanAnswer(world, reg, cfg, globalHelpers) == Some(e)
    ensures InlineAnswer(cfg.auths, reg) == Some(e)
    ensures cfg.auths[reg].identityToken != [] && GivesPassword(cfg.auths[reg])
  {
    FirstAnswerConsistent(world, Sources(cfg, globalHelpers, reg), reg);
    if reg in cfg.auths {
      InlineTokenExcludesPasswordIff(reg, cfg.auths[reg]);
    }
    if reg in cfg.credHelpers && Ask(world, cfg.credHelpers[reg], reg).Hit? {
      HelperConsistent(world.get(cfg.credHelpers[reg], reg));
    }
    if Ask(world, cfg.credsStore, reg).Hit? {
      HelperConsistent(world.get(cfg.credsStore, reg));
    }
  }

  lemma {:induction false} SomeFirstHit(world: Helpers, sources: seq<string>, reg: string) returns (i: nat)
    requires !NoHit(world, sources, reg)
    ensures FirstHit(world, sources, reg, i)
  {
    var n := |sources| - 1;
    if NoHit(world, sources[..n], reg) {
      i := n;
      assert forall j | 0 <= j < n :: sources[..n][j] == sources[j];
    } else {
      i := SomeFirstHit(world, sources[..n], reg);
      assert forall j | 0 <= j <= i :: sources[..n][j] == sources[j];
    }
  }

  // A registry is in Podman's result exactly when some file or listing names it and its chain answers; outside
  // the collected set it has neither a helper of its own nor an inline entry.
  lemma PodmanResultDomain(world: Helpers, cfg: RegistryConfig, globalHelpers: seq<string>, reg: string)
    ensures reg !in PodmanRegistries(world, cfg, globalHelpers) ==>
              reg !in cfg.credHelpers && InlineAnswer(cfg.auths, reg) == None
                  && Sources(cfg, globalHelpers, reg) == globalHelpers
    ensures reg in PodmanRegistries(world, cfg, globalHelpers) && reg !in PodmanResult(world, cfg, globalHelpers) <==>
            reg in PodmanRegistries(world, cfg, globalHelpers) && NoHit(world, Sources(cfg, globalHelpers, reg), reg)
            && InlineAnswer(cfg.auths, reg) == None
  {
    var sources := Sources(cfg, globalHelpers, reg);
    if NoHit(world, sources, reg) {
      NoAnswer(world, sources, reg);
    } else {
      var i := SomeFirstHit(world, sources, reg);
      FirstAnswerIs(world, sources, reg, i);
    }
  }

  // Docker never falls through: what the auth file says about a registry is ignored, whatever it says, exactly when a
  // helper of its own or a global store covers the registry.
  lemma DockerIgnoresInlineIff(world: Helpers, cfg: RegistryConfig, reg: string)
    ensures (forall a, b ::
               DockerAnswer(world, reg, cfg.(auths := a)) == DockerAnswer(world, reg, cfg.(auths := b))) <==>
            reg in cfg.credHelpers || cfg.credsStore != ""
  {
    if reg !in cfg.credHelpers && cfg.credsStore == "" {
      var given := map[reg := RawAuthEntry([], [117], [112], [], [])];
      assert DockerAnswer(world, reg, cfg.(auths := given)).Some?;
      assert DockerAnswer(world, reg, cfg.(auths := map[])) == None;
    }
  }

  // The same config read by both chains, with no store and no global helpers: Podman returns all Docker returns,
  // entry for entry, and besides only the registries whose own helper gives no answer but whose inline entry does.
  lemma DockerWithinPodman(world: Helpers, cfg: RegistryConfig, reg: string)
    requires cfg.credsStore == ""
    ensures var d, p := DockerResult(world, cfg), PodmanResult(world, cfg, []);
            && (reg in d ==> reg in p && p[reg] == d[reg])
            && (reg in p && reg !in d <==>
                reg in cfg.credHelpers && !Ask(world, cfg.credHelpers[reg], reg).Hit?
                    && InlineAnswer(cfg.auths, reg).Some?)
  {
    var sources := Sources(cfg, [], reg);
    if reg in cfg.credHelpers {
      assert sources == [cfg.credHelpers[reg]] && sources[1..] == [];
      assert FirstAnswer(world, sources[1..], reg) == None;
    } else {
      assert sources == [];
    }
  }

  // End to end: point REGISTRY_AUTH_FILE at a file with Docker's config, configure neither a store nor
  // registries.conf helpers, and every credential the Docker chain resolves is resolved by the Podman chain.
  lemma OverrideContainsDocker(fs: FileSystem, world: Helpers, env: CredEnv, merged: RegistryConfig, reg: string)
    requires env.registryAuthFile != "" && MergedConfig(fs, env, merged)
    requires ParseAuthFile(fs, AuthFilePath(Root(env.registryAuthFile), false)) ==
             ParseAuthFile(fs, AuthFilePath(DockerConfigFile(env), false))
    requires ParseAuthFile(fs, AuthFilePath(DockerConfigFile(env), false)).Some?
    requires ParseAuthFile(fs, AuthFilePath(DockerConfigFile(env), false)).value.credsStore == ""
    ensures var d := DockerResult(world, ParseAuthFile(fs, AuthFilePath(DockerConfigFile(env), false)).value);
            var p := PodmanResult(world, merged, []);
            reg in d ==> reg in p && p[reg] == d[reg]
  {
    OverrideIsSoleSource(fs, env, merged.auths, merged.credHelpers);
    DockerWithinPodman(world, merged, reg);
  }

  // A blank entry in an earlier file hides a full entry for the same registry in every later file.
  lemma BlankShadows(fs: FileSystem, env: CredEnv, cfg: RegistryConfig, reg: string, i: nat)
    requires MergedConfig(fs, env, cfg)
    requires var cfgs := Readable(fs, PodmanAuthPaths(env));
             && i < |cfgs| && reg in cfgs[i].auths && Blank(cfgs[i].auths[reg])
             && forall j | 0 <= j < i :: reg !in cfgs[j].auths
    ensures InlineAnswer(cfg.auths, reg) == None
  {
    var maps := AuthsOf(Readable(fs, PodmanAuthPaths(env)));
    assert reg in maps[i] && forall j | 0 <= j < i :: reg !in maps[j];
  }
}
