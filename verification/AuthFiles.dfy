/** The Podman auth file cascade: which files are read, in which order, and what merging them means. */
module AuthFiles {
  import opened Outcomes
  import opened Credentials

  // filepath.Join, kept symbolic.
  datatype Path = Root(text: string) | Join(dir: Path, name: string)

  datatype AuthFilePath = AuthFilePath(path: Path, legacy: bool)

  datatype CredEnv = CredEnv(
    homeDir: string,
    dockerConfig: string,
    xdgRuntimeDir: string,
    xdgConfigHome: string,
    registryAuthFile: string)

  datatype RegistryConfig = RegistryConfig(
    auths: map<string, RawAuthEntry>,
    credsStore: string,
    credHelpers: map<string, string>)

  // What reading a file yields. The bytes of a file may parse as a legacy flat object, as a wrapped config,
  // as neither, or as both.
  datatype FileData = Missing | Unreadable | Contents(flat: Option<map<string, RawAuthEntry>>,
      wrapped: Option<RegistryConfig>)

  type FileSystem = Path -> FileData

  const EMPTY_CONFIG: RegistryConfig := RegistryConfig(map[], "", map[])

  function DockerConfigDir(env: CredEnv): Path {
    if env.dockerConfig == "" then Join(Root(env.homeDir), ".docker") else Root(env.dockerConfig)
  }

  function DockerConfigFile(env: CredEnv): Path {
    Join(DockerConfigDir(env), "config.json")
  }

  function XdgConfigHome(env: CredEnv): Path {
    if env.xdgConfigHome == "" then Join(Root(env.homeDir), ".config") else Root(env.xdgConfigHome)
  }

  function AuthJson(dir: Path): AuthFilePath {
    AuthFilePath(Join(Join(dir, "containers"), "auth.json"), false)
  }

  function PodmanAuthPaths(env: CredEnv): seq<AuthFilePath> {
    if env.registryAuthFile != "" then [AuthFilePath(Root(env.registryAuthFile), false)]
    else
      (if env.xdgRuntimeDir != "" then [AuthJson(Root(env.xdgRuntimeDir))] else [])
      + [AuthJson(XdgConfigHome(env)),
         AuthFilePath(DockerConfigFile(env), false),
         AuthFilePath(Join(Root(env.homeDir), ".dockercfg"), true)]
  }

  // A missing file is an empty config; None is an error.
  function ParseAuthFile(fs: FileSystem, ap: AuthFilePath): Option<RegistryConfig> {
    match fs(ap.path)
    case Missing => Some(EMPTY_CONFIG)
    case Unreadable => None
    case Contents(flat, wrapped) =>
      if ap.legacy then
        match flat
        case Some(auths) => Some(RegistryConfig(auths, "", map[]))
        case None => None
      else wrapped
  }

  // The configs that could be read, in cascade order.
  ghost function Readable(fs: FileSystem, paths: seq<AuthFilePath>): seq<RegistryConfig> {
    if paths == [] then []
    else
      var n := |paths| - 1;
      Readable(fs, paths[..n]) +
      (match ParseAuthFile(fs, paths[n])
       case Some(cfg) => [cfg]
       case None => [])
  }

  // m holds, for each key of any of the maps, the value of the first map that mentions it.
  ghost predicate FirstWins<V>(maps: seq<map<string, V>>, m: map<string, V>) {
    && (forall k :: k in m <==> exists i :: 0 <= i < |maps| && k in maps[i])
    && (forall k, i | 0 <= i < |maps| && k in maps[i] && (forall j | 0 <= j < i :: k !in maps[j]) ::
          k in m && m[k] == maps[i][k])
  }

  lemma {:induction false} FirstMention<V>(maps: seq<map<string, V>>, k: string) returns (i: nat)
    requires exists j :: 0 <= j < |maps| && k in maps[j]
    ensures i < |maps| && k in maps[i] && forall j | 0 <= j < i :: k !in maps[j]
  {
    i := 0;
    while k !in maps[i]
      invariant i < |maps| && forall j | 0 <= j < i :: k !in maps[j]
      invariant exists j :: i <= j < |maps| && k in maps[j]
      decreases |maps| - i
    {
      i := i + 1;
    }
  }

  // First-found-wins determines the merged map.
  lemma FirstWinsUnique<V>(maps: seq<map<string, V>>, a: map<string, V>, b: map<string, V>)
    requires FirstWins(maps, a) && FirstWins(maps, b)
    ensures a == b
  {
    forall k | k in a ensures k in b && a[k] == b[k] {
      var i := FirstMention(maps, k);
    }
    assert a.Keys == b.Keys;
  }

  // Adding one more file at the end of the cascade only adds keys nobody mentioned before.
  lemma FirstWinsSnoc<V>(maps: seq<map<string, V>>, m: map<string, V>, next: map<string, V>)
    requires FirstWins(maps, m)
    ensures FirstWins(maps + [next], next + m)
  {
    var all, r := maps + [next], next + m;
    forall k ensures k in r <==> exists i :: 0 <= i < |all| && k in all[i] {
      if k in m {
        var i := FirstMention(maps, k);
        assert k in all[i];
      } else if k in next {
        assert k in all[|maps|];
      }
    }
    forall k, i | 0 <= i < |all| && k in all[i] && (forall j | 0 <= j < i :: k !in all[j])
      ensures k in r && r[k] == all[i][k]
    {
      if i < |maps| {
        assert k in maps[i] && forall j | 0 <= j < i :: k !in maps[j] by {
          assert forall j | 0 <= j < i :: all[j] == maps[j];
        }
      } else {
        assert forall j | 0 <= j < |maps| :: k !in maps[j] by {
          assert forall j | 0 <= j < |maps| :: all[j] == maps[j];
        }
      }
    }
  }

  ghost function AuthsOf(cfgs: seq<RegistryConfig>): seq<map<string, RawAuthEntry>> {
    seq(|cfgs|, i requires 0 <= i < |cfgs| => cfgs[i].auths)
  }

  ghost function HelpersOf(cfgs: seq<RegistryConfig>): seq<map<string, string>> {
    seq(|cfgs|, i requires 0 <= i < |cfgs| => cfgs[i].credHelpers)
  }

  // Appending a path appends its config, if it can be read.
  lemma ReadableSnoc(fs: FileSystem, paths: seq<AuthFilePath>, ap: AuthFilePath)
    ensures var before, after := Readable(fs, paths), Readable(fs, paths + [ap]);
            match ParseAuthFile(fs, ap)
            case Some(cfg) =>
              && after == before + [cfg]
              && AuthsOf(after) == AuthsOf(before) + [cfg.auths]
              && HelpersOf(after) == HelpersOf(before) + [cfg.credHelpers]
            case None => after == before
  {
    assert (paths + [ap])[..|paths + [ap]| - 1] == paths;
  }

  // The inner loop of mergePodmanAuthFiles, for one file and either of its maps, in any iteration order.
  method MergeMissing<V>(m: map<string, V>, next: map<string, V>) returns (r: map<string, V>)
    ensures r == next + m
  {
    r := m;
    var todo := next.Keys;
    while todo != {}
      invariant todo <= next.Keys
      invariant r.Keys == m.Keys + (next.Keys - todo)
      invariant forall k | k in r :: r[k] == if k in m then m[k] else next[k]
    {
      var k :| k in todo;
      todo := todo - {k};
      if k !in r {
        r := r[k := next[k]];
      }
    }
  }

  // What one file says about key k. A file that is missing, unreadable or does not parse says nothing.
  ghost function AuthIn(file: FileData, k: string): Option<RawAuthEntry> {
    if file.Contents? && file.wrapped.Some? && k in file.wrapped.value.auths
    then Some(file.wrapped.value.auths[k]) else None
  }

  ghost function HelperIn(file: FileData, k: string): Option<string> {
    if file.Contents? && file.wrapped.Some? && k in file.wrapped.value.credHelpers
    then Some(file.wrapped.value.credHelpers[k]) else None
  }

  // The legacy format is a flat object of entries, without helpers.
  ghost function LegacyAuthIn(file: FileData, k: string): Option<RawAuthEntry> {
    if file.Contents? && file.flat.Some? && k in file.flat.value then Some(file.flat.value[k]) else None
  }

  ghost function OrElse<T>(first: Option<T>, second: Option<T>): Option<T> {
    if first.Some? then first else second
  }

  ghost function Lookup<T>(m: map<string, T>, k: string): Option<T> {
    if k in m then Some(m[k]) else None
  }

  // The cascade, file by file, from the strongest to the weakest: the auth.json under XDG_RUNTIME_DIR if that is
  // set, the
  // one under XDG_CONFIG_HOME or ~/.config, Docker's config.json under DOCKER_CONFIG or ~/.docker, and ~/.dockercfg in
  // the legacy format.
  ghost predicate SaidInTurn(fs: FileSystem, env: CredEnv, k: string, auth: Option<RawAuthEntry>,
                             helper: Option<string>) {
    var runtime := fs(Join(Join(Root(env.xdgRuntimeDir), "containers"), "auth.json"));
    var configDir := if env.xdgConfigHome != "" then Root(env.xdgConfigHome) else Join(Root(env.homeDir), ".config");
    var config := fs(Join(Join(configDir, "containers"), "auth.json"));
    var dockerDir := if env.dockerConfig != "" then Root(env.dockerConfig) else Join(Root(env.homeDir), ".docker");
    var docker := fs(Join(dockerDir, "config.json"));
    var legacy := fs(Join(Root(env.homeDir), ".dockercfg"));
    && auth ==
       OrElse(if env.xdgRuntimeDir != "" then AuthIn(runtime, k) else None,
         OrElse(AuthIn(config, k), OrElse(AuthIn(docker, k), LegacyAuthIn(legacy, k))))
    && helper ==
       OrElse(if env.xdgRuntimeDir != "" then HelperIn(runtime, k) else None,
         OrElse(HelperIn(config, k), HelperIn(docker, k)))
  }

  // What is merged for k: REGISTRY_AUTH_FILE alone decides if it is set, else the cascade.
  ghost predicate FollowsCascade(fs: FileSystem, env: CredEnv, auths: map<string, RawAuthEntry>,
                                 helpers: map<string, string>, k: string) {
    if env.registryAuthFile == "" then SaidInTurn(fs, env, k, Lookup(auths, k), Lookup(helpers, k))
    else
      var override := fs(Root(env.registryAuthFile));
      Lookup(auths, k) == AuthIn(override, k) && Lookup(helpers, k) == HelperIn(override, k)
  }

  // The maps of the readable files merged from the last to the first.
  ghost function Merged<V>(maps: seq<map<string, V>>): map<string, V> {
    if maps == [] then map[] else maps[|maps| - 1] + Merged(maps[..|maps| - 1])
  }

  lemma {:induction false} MergedIsFirstWins<V>(maps: seq<map<string, V>>)
    ensures FirstWins(maps, Merged(maps))
  {
    if maps != [] {
      var n := |maps| - 1;
      assert maps == maps[..n] + [maps[n]];
      MergedIsFirstWins(maps[..n]);
      FirstWinsSnoc(maps[..n], Merged(maps[..n]), maps[n]);
    }
  }

  lemma MergedSnoc<V>(maps: seq<map<string, V>>, m: map<string, V>, k: string)
    ensures Lookup(Merged(maps + [m]), k) == OrElse(Lookup(Merged(maps), k), Lookup(m, k))
  {
    assert (maps + [m])[..|maps + [m]| - 1] == maps;
  }

  // What the files at these paths, merged, say about k.
  ghost function AuthAlong(fs: FileSystem, paths: seq<AuthFilePath>, k: string): Option<RawAuthEntry> {
    Lookup(Merged(AuthsOf(Readable(fs, paths))), k)
  }

  ghost function HelperAlong(fs: FileSystem, paths: seq<AuthFilePath>, k: string): Option<string> {
    Lookup(Merged(HelpersOf(Readable(fs, paths))), k)
  }

  lemma ParsedFileSays(fs: FileSystem, ap: AuthFilePath, k: string)
    ensures match ParseAuthFile(fs, ap)
            case Some(cfg) =>
              && Lookup(cfg.auths, k) == (if ap.legacy then LegacyAuthIn(fs(ap.path), k) else AuthIn(fs(ap.path), k))
              && Lookup(cfg.credHelpers, k) == (if ap.legacy then None else HelperIn(fs(ap.path), k))
            case None =>
              && (if ap.legacy then LegacyAuthIn(fs(ap.path), k) else AuthIn(fs(ap.path), k)) == None
              && (if ap.legacy then None else HelperIn(fs(ap.path), k)) == None
  {
  }

  lemma OneMoreConfig(fs: FileSystem, paths: seq<AuthFilePath>, ap: AuthFilePath, k: string)
    ensures match ParseAuthFile(fs, ap)
            case Some(cfg) =>
              && AuthAlong(fs, paths + [ap], k) == OrElse(AuthAlong(fs, paths, k), Lookup(cfg.auths, k))
              && HelperAlong(fs, paths + [ap], k) == OrElse(HelperAlong(fs, paths, k), Lookup(cfg.credHelpers, k))
            case None =>
              AuthAlong(fs, paths + [ap], k) == AuthAlong(fs, paths, k)
              && HelperAlong(fs, paths + [ap], k) == HelperAlong(fs, paths, k)
  {
    ReadableSnoc(fs, paths, ap);
    if ParseAuthFile(fs, ap).Some? {
      var cfg := ParseAuthFile(fs, ap).value;
      MergedSnoc(AuthsOf(Readable(fs, paths)), cfg.auths, k);
      MergedSnoc(HelpersOf(Readable(fs, paths)), cfg.credHelpers, k);
    }
  }

  lemma OneMoreFile(fs: FileSystem, paths: seq<AuthFilePath>, ap: AuthFilePath, k: string)
    ensures AuthAlong(fs, paths + [ap], k) ==
            OrElse(AuthAlong(fs, paths, k), if ap.legacy then LegacyAuthIn(fs(ap.path), k) else AuthIn(fs(ap.path), k))
    ensures HelperAlong(fs, paths + [ap], k) ==
            OrElse(HelperAlong(fs, paths, k), if ap.legacy then None else HelperIn(fs(ap.path), k))
  {
    ParsedFileSays(fs, ap, k);
    OneMoreConfig(fs, paths, ap, k);
  }

  // The three files every cascade ends with, each heard only when the earlier ones say nothing.
  lemma LastThreeFiles(fs: FileSystem, start: seq<AuthFilePath>, b: AuthFilePath, c: AuthFilePath, d: AuthFilePath,
                       k: string)
    requires !b.legacy && !c.legacy && d.legacy
    ensures AuthAlong(fs, start + [b] + [c] + [d], k) ==
            OrElse(AuthAlong(fs, start, k),
              OrElse(AuthIn(fs(b.path), k), OrElse(AuthIn(fs(c.path), k), LegacyAuthIn(fs(d.path), k))))
    ensures HelperAlong(fs, start + [b] + [c] + [d], k) ==
            OrElse(HelperAlong(fs, start, k), OrElse(HelperIn(fs(b.path), k), HelperIn(fs(c.path), k)))
  {
    OneMoreFile(fs, start, b, k);
    OneMoreFile(fs, start + [b], c, k);
    OneMoreFile(fs, start + [b] + [c], d, k);
  }

  lemma FirstFile(fs: FileSystem, ap: AuthFilePath, k: string)
    requires !ap.legacy
    ensures AuthAlong(fs, [ap], k) == AuthIn(fs(ap.path), k) && HelperAlong(fs, [ap], k) == HelperIn(fs(ap.path), k)
  {
    assert [] + [ap] == [ap];
    OneMoreFile(fs, [], ap, k);
  }

  lemma NoFile(fs: FileSystem, k: string)
    ensures AuthAlong(fs, [], k) == None && HelperAlong(fs, [], k) == None
  {
  }

  lemma AllFilesInTurn(fs: FileSystem, env: CredEnv, k: string)
    requires env.registryAuthFile == ""
    ensures SaidInTurn(fs, env, k, AuthAlong(fs, PodmanAuthPaths(env), k), HelperAlong(fs, PodmanAuthPaths(env), k))
  {
    var runtime, b, c := AuthJson(Root(env.xdgRuntimeDir)), AuthJson(XdgConfigHome(env)), DockerConfigFile(env);
    var d := AuthFilePath(Join(Root(env.homeDir), ".dockercfg"), true);
    var start := if env.xdgRuntimeDir != "" then [runtime] else [];
    if env.xdgRuntimeDir != "" {
      FirstFile(fs, runtime, k);
    } else {
      NoFile(fs, k);
    }
    LastThreeFiles(fs, start, b, AuthFilePath(c, false), d, k);
    assert PodmanAuthPaths(env) == start + [b] + [AuthFilePath(c, false)] + [d];
  }

  lemma MergedLookup(fs: FileSystem, paths: seq<AuthFilePath>, auths: map<string, RawAuthEntry>,
                     helpers: map<string, string>, k: string)
    requires FirstWins(AuthsOf(Readable(fs, paths)), auths) && FirstWins(HelpersOf(Readable(fs, paths)), helpers)
    ensures Lookup(auths, k) == AuthAlong(fs, paths, k) && Lookup(helpers, k) == HelperAlong(fs, paths, k)
  {
    MergedIsFirstWins(AuthsOf(Readable(fs, paths)));
    MergedIsFirstWins(HelpersOf(Readable(fs, paths)));
    FirstWinsUnique(AuthsOf(Readable(fs, paths)), auths, Merged(AuthsOf(Readable(fs, paths))));
    FirstWinsUnique(HelpersOf(Readable(fs, paths)), helpers, Merged(HelpersOf(Readable(fs, paths))));
  }

  // A first-found-wins merge follows the cascade.
  lemma CascadeIs(fs: FileSystem, env: CredEnv, auths: map<string, RawAuthEntry>, helpers: map<string, string>,
                  k: string)
    requires FirstWins(AuthsOf(Readable(fs, PodmanAuthPaths(env))), auths)
    requires FirstWins(HelpersOf(Readable(fs, PodmanAuthPaths(env))), helpers)
    ensures FollowsCascade(fs, env, auths, helpers, k)
  {
    MergedLookup(fs, PodmanAuthPaths(env), auths, helpers, k);
    if env.registryAuthFile != "" {
      FirstFile(fs, AuthFilePath(Root(env.registryAuthFile), false), k);
    } else {
      AllFilesInTurn(fs, env, k);
    }
  }

  lemma CascadeFollowed(fs: FileSystem, env: CredEnv, auths: map<string, RawAuthEntry>, helpers: map<string, string>)
    requires FirstWins(AuthsOf(Readable(fs, PodmanAuthPaths(env))), auths)
    requires FirstWins(HelpersOf(Readable(fs, PodmanAuthPaths(env))), helpers)
    ensures forall k :: FollowsCascade(fs, env, auths, helpers, k)
  {
    forall k {
      CascadeIs(fs, env, auths, helpers, k);
    }
  }

  // mergePodmanAuthFiles: unreadable files are skipped, and per key the earliest readable file wins.
  method MergePodmanAuthFiles(fs: FileSystem, env: CredEnv)
    returns (auths: map<string, RawAuthEntry>, helpers: map<string, string>)
    ensures FirstWins(AuthsOf(Readable(fs, PodmanAuthPaths(env))), auths)
    ensures FirstWins(HelpersOf(Readable(fs, PodmanAuthPaths(env))), helpers)
    ensures forall k :: FollowsCascade(fs, env, auths, helpers, k)
  {
    auths, helpers := map[], map[];
    var paths := PodmanAuthPaths(env);
    for i := 0 to |paths|
      invariant FirstWins(AuthsOf(Readable(fs, paths[..i])), auths)
      invariant FirstWins(HelpersOf(Readable(fs, paths[..i])), helpers)
    {
      assert paths[..i + 1] == paths[..i] + [paths[i]];
      ReadableSnoc(fs, paths[..i], paths[i]);
      var cfg := ParseAuthFile(fs, paths[i]);
      if cfg.None? {
        continue;
      }
      FirstWinsSnoc(AuthsOf(Readable(fs, paths[..i])), auths, cfg.value.auths);
      FirstWinsSnoc(HelpersOf(Readable(fs, paths[..i])), helpers, cfg.value.credHelpers);
      auths := MergeMissing(auths, cfg.value.auths);
      helpers := MergeMissing(helpers, cfg.value.credHelpers);
    }
    assert paths[..|paths|] == paths;
    CascadeFollowed(fs, env, auths, helpers);
  }

  lemma OneMap<V>(m: map<string, V>)
    ensures FirstWins([m], m)
  {
    assert forall k :: k in m ==> k in [m][0];
  }

  // With REGISTRY_AUTH_FILE set, that one file is the whole story.
  lemma OverrideIsSoleSource(fs: FileSystem, env: CredEnv, auths: map<string, RawAuthEntry>,
                             helpers: map<string, string>)
    requires env.registryAuthFile != ""
    requires FirstWins(AuthsOf(Readable(fs, PodmanAuthPaths(env))), auths)
    requires FirstWins(HelpersOf(Readable(fs, PodmanAuthPaths(env))), helpers)
    ensures match ParseAuthFile(fs, AuthFilePath(Root(env.registryAuthFile), false))
            case Some(cfg) => auths == cfg.auths && helpers == cfg.credHelpers
            case None => auths == map[] && helpers == map[]
  {
    var ap := AuthFilePath(Root(env.registryAuthFile), false);
    ReadableSnoc(fs, [], ap);
    assert PodmanAuthPaths(env) == [] + [ap];
    var cfgs := Readable(fs, [] + [ap]);
    match ParseAuthFile(fs, ap)
    case Some(cfg) =>
      assert AuthsOf(cfgs) == [cfg.auths] && HelpersOf(cfgs) == [cfg.credHelpers];
      OneMap(cfg.auths);
      OneMap(cfg.credHelpers);
      FirstWinsUnique([cfg.auths], auths, cfg.auths);
      FirstWinsUnique([cfg.credHelpers], helpers, cfg.credHelpers);
    case None =>
      assert auths.Keys == {} && helpers.Keys == {};
  }
}
