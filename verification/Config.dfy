/** The configuration types, and the uniqueness check every load and save runs. */
module Config {
  import opened Wrappers

  type u32 = x: int | 0 <= x < 0x1_0000_0000
  type u64 = x: int | 0 <= x < 0x1_0000_0000_0000_0000

  datatype TranscodeFormat = Mp3 | Vorbis
  datatype TranscodeConfig = TranscodeConfig(format: TranscodeFormat, sampleRate: u32, bitrateKbps: u32)
  datatype LogFormat = Json | Pretty
  datatype UserRole = Admin | Operator
  datatype Order = Shuffle | Sequential

  /** The four display fields that mounts, AutoDJs and relays share. */
  datatype Metadata = Metadata(
    name: Option<string>, description: Option<string>, genre: Option<string>, url: Option<string>)

  /** Socket addresses are kept as their canonical text. */
  datatype ServerConfig = ServerConfig(streamBind: string, adminBind: string, hostname: string)
  datatype LoggingConfig = LoggingConfig(level: string, format: LogFormat)
  datatype UserConfig = UserConfig(username: string, passwordBcrypt: string, role: UserRole)
  datatype AuthConfig = AuthConfig(users: seq<UserConfig>, sourcePassword: Option<string>)
  datatype LimitsConfig = LimitsConfig(
    maxListenersGlobal: u32, ringSize: u64, slowListenerGraceS: u64, sourceMaxKbps: Option<u32>, burstSize: u32)
  datatype TlsConfig = TlsConfig(acmeDomain: Option<string>, certCacheDir: Option<string>)

  datatype MountConfig = MountConfig(
    path: string, sourcePassword: string, maxListeners: Option<u32>, meta: Metadata,
    transcode: Option<TranscodeConfig>, burstSize: Option<u32>)

  datatype AutoDjConfig = AutoDjConfig(
    mount: string, folder: string, meta: Metadata, enabled: bool, loopPlaylist: bool, order: Order,
    maxListeners: Option<u32>, burstSize: Option<u32>, transcode: TranscodeConfig)

  datatype RelayConfig = RelayConfig(
    mount: string, upstream: string, meta: Metadata, enabled: bool, username: Option<string>,
    password: Option<string>, maxListeners: Option<u32>, burstSize: Option<u32>, transcode: Option<TranscodeConfig>)

  datatype Config = Config(
    server: ServerConfig, logging: LoggingConfig, auth: AuthConfig, limits: LimitsConfig,
    mounts: seq<MountConfig>, autodjs: seq<AutoDjConfig>, relays: seq<RelayConfig>,
    tls: Option<TlsConfig>, transcode: Option<TranscodeConfig>)

  // ── Path uniqueness ───────────────────────────────────────────────────────

  function MountPaths(c: Config): seq<string> {
    seq(|c.mounts|, i requires 0 <= i < |c.mounts| => c.mounts[i].path)
  }

  function AutoDjPaths(c: Config): seq<string> {
    seq(|c.autodjs|, i requires 0 <= i < |c.autodjs| => c.autodjs[i].mount)
  }

  function RelayPaths(c: Config): seq<string> {
    seq(|c.relays|, i requires 0 <= i < |c.relays| => c.relays[i].mount)
  }

  ghost predicate Distinct<T>(s: seq<T>) {
    forall i, j :: 0 <= i < j < |s| ==> s[i] != s[j]
  }

  /** No path is used twice, in any section or across sections. */
  ghost predicate UniquePaths(c: Config) {
    Distinct(MountPaths(c) + AutoDjPaths(c) + RelayPaths(c))
  }

  predicate StartsWith(s: string, prefix: string) { prefix <= s }

  predicate RelayOk(r: RelayConfig) {
    && (StartsWith(r.upstream, "http://") || StartsWith(r.upstream, "https://"))
    && (r.username.Some? <==> r.password.Some?)
  }

  /** An upstream is one of the two schemes with anything behind it. */
  lemma RelayOkIff(r: RelayConfig)
    ensures RelayOk(r) <==>
      && (exists rest :: r.upstream == "http://" + rest || r.upstream == "https://" + rest)
      && (r.username.Some? <==> r.password.Some?)
  {
    if StartsWith(r.upstream, "http://") { assert r.upstream == "http://" + r.upstream[7..]; }
    if StartsWith(r.upstream, "https://") { assert r.upstream == "https://" + r.upstream[8..]; }
  }

  ghost predicate ValidConfig(c: Config) {
    UniquePaths(c) && forall i :: 0 <= i < |c.relays| ==> RelayOk(c.relays[i])
  }

  lemma DistinctAppend<T>(s: seq<T>, x: T)
    ensures Distinct(s + [x]) <==> Distinct(s) && x !in s
  {
    if Distinct(s + [x]) {
      forall i, j | 0 <= i < j < |s| ensures s[i] != s[j] {
        assert (s + [x])[i] != (s + [x])[j];
      }
      forall i | 0 <= i < |s| ensures s[i] != x {
        assert (s + [x])[i] != (s + [x])[|s|];
      }
    }
  }

  lemma DistinctPrefix<T>(s: seq<T>, t: seq<T>)
    requires Distinct(s + t)
    ensures Distinct(s)
  {
    forall i, j | 0 <= i < j < |s| ensures s[i] != s[j] {
      assert (s + t)[i] != (s + t)[j];
    }
  }

  /** Insert the paths of one section into `seen`, in order; false at the first
      one already there. */
  method InsertAll(paths: seq<string>, seen: seq<string>) returns (ok: bool)
    requires Distinct(seen)
    ensures ok <==> Distinct(seen + paths)
  {
    var all := seen;
    for i := 0 to |paths|
      invariant all == seen + paths[..i] && Distinct(all)
    {
      DistinctAppend(all, paths[i]);
      assert seen + paths[..i + 1] == all + [paths[i]];
      if paths[i] in all {
        if Distinct(seen + paths) {
          assert seen + paths == (seen + paths[..i + 1]) + paths[i + 1..];
          DistinctPrefix(seen + paths[..i + 1], paths[i + 1..]);
        }
        return false;
      }
      all := all + [paths[i]];
    }
    assert paths[..|paths|] == paths;
    return true;
  }

  lemma UniqueParts(c: Config)
    requires UniquePaths(c)
    ensures Distinct(MountPaths(c)) && Distinct(MountPaths(c) + AutoDjPaths(c))
  {
    DistinctPrefix(MountPaths(c) + AutoDjPaths(c), RelayPaths(c));
    DistinctPrefix(MountPaths(c), AutoDjPaths(c));
  }

  method RelaysOk(rs: seq<RelayConfig>) returns (ok: bool)
    ensures ok <==> forall i :: 0 <= i < |rs| ==> RelayOk(rs[i])
  {
    for i := 0 to |rs|
      invariant forall j :: 0 <= j < i ==> RelayOk(rs[j])
    {
      if !RelayOk(rs[i]) { return false; }
    }
    return true;
  }

  /** `Config::validate_paths`: accepts exactly the configurations whose paths are
      all different and whose relays have an HTTP upstream and both or neither of
      username and password. */
  method ValidatePaths(c: Config) returns (ok: bool)
    ensures ok <==> ValidConfig(c)
  {
    if UniquePaths(c) { UniqueParts(c); }
    ok := InsertAll(MountPaths(c), []);
    assert [] + MountPaths(c) == MountPaths(c);
    if ok { ok := InsertAll(AutoDjPaths(c), MountPaths(c)); }
    if ok { ok := InsertAll(RelayPaths(c), MountPaths(c) + AutoDjPaths(c)); }
    if ok { ok := RelaysOk(c.relays); }
  }
}
