/** The configuration file as a tree of tables: what the parser reads from it, what
    the section writers change in it, and how the serializer first writes it. */
module ConfigDoc {
  import opened Wrappers
  import opened Config

  type i64 = x: int | -0x8000_0000_0000_0000 <= x < 0x8000_0000_0000_0000
  const I64_MAX: i64 := 0x7fff_ffff_ffff_ffff

  /** The keys the program knows; any other key is kept and never read. */
  datatype Key =
    | Server | Logging | Auth | Limits | Mounts | AutoDjs | Relays | Tls | Transcode
    | StreamBind | AdminBind | Hostname | Level | Format
    | Users | SourcePassword | Username | PasswordBcrypt | RoleKey
    | MaxListenersGlobal | RingSize | SlowListenerGraceS | SourceMaxKbps | BurstSize
    | Path | MaxListeners | Name | Description | Genre | Url
    | Mount | Folder | Enabled | Loop | OrderKey | Upstream | Password
    | SampleRate | BitrateKbps | AcmeDomain | CertCacheDir
    | Unknown(name: string)

  type Table = map<Key, Item>

  /** A table is written under its own header, or inline between braces. */
  datatype Item =
    | Str(s: string) | Int(i: i64) | Bool(b: bool)
    | Sub(entries: Table, inline: bool)
    | Tables(list: seq<Table>)

  function Get(t: Table, k: Key): Option<Item> { if k in t then Some(t[k]) else None }

  function AsStr(x: Item): Option<string> { if x.Str? then Some(x.s) else None }

  function AsBool(x: Item): Option<bool> { if x.Bool? then Some(x.b) else None }

  function AsU32(x: Item): Option<u32> { if x.Int? && 0 <= x.i < 0x1_0000_0000 then Some(x.i) else None }

  function AsU64(x: Item): Option<u64> { if x.Int? && 0 <= x.i then Some(x.i) else None }

  function AsTable(x: Item): Option<Table> { if x.Sub? then Some(x.entries) else None }

  function AsTables(x: Item): Option<seq<Table>> { if x.Tables? then Some(x.list) else None }

  /** A mandatory key. */
  function Need<T>(t: Table, k: Key, read: Item -> Option<T>): Option<T> {
    if k in t then read(t[k]) else None
  }

  /** An optional key: absent is fine, ill-typed is not. */
  function May<T>(t: Table, k: Key, read: Item -> Option<T>): Option<Option<T>> {
    if k !in t then Some(None)
    else
      var v :- read(t[k]);
      Some(Some(v))
  }

  /** An optional key with a default. */
  function Or<T>(t: Table, k: Key, read: Item -> Option<T>, default: T): Option<T> {
    if k in t then read(t[k]) else Some(default)
  }

  // ── Parsing ───────────────────────────────────────────────────────────────

  function AsFormat(x: Item): Option<TranscodeFormat> {
    if x == Str("mp3") then Some(TranscodeFormat.Mp3)
    else if x == Str("vorbis") then Some(TranscodeFormat.Vorbis) else None
  }

  function AsLogFormat(x: Item): Option<LogFormat> {
    if x == Str("json") then Some(Json) else if x == Str("pretty") then Some(Pretty) else None
  }

  function AsRole(x: Item): Option<UserRole> {
    if x == Str("admin") then Some(Admin) else if x == Str("operator") then Some(Operator) else None
  }

  function AsOrder(x: Item): Option<Order> {
    if x == Str("shuffle") then Some(Shuffle) else if x == Str("sequential") then Some(Sequential) else None
  }

  function ParseTranscode(t: Table): Option<TranscodeConfig> {
    var format :- Need(t, Format, AsFormat);
    var sampleRate :- Need(t, SampleRate, AsU32);
    var bitrateKbps :- Need(t, BitrateKbps, AsU32);
    Some(TranscodeConfig(format, sampleRate, bitrateKbps))
  }

  function AsTranscode(x: Item): Option<TranscodeConfig> {
    var t :- AsTable(x);
    ParseTranscode(t)
  }

  function ParseMeta(t: Table): Option<Metadata> {
    var name :- May(t, Name, AsStr);
    var description :- May(t, Description, AsStr);
    var genre :- May(t, Genre, AsStr);
    var url :- May(t, Url, AsStr);
    Some(Metadata(name, description, genre, url))
  }

  function ParseMount(t: Table): Option<MountConfig> {
    var path :- Need(t, Path, AsStr);
    var sourcePassword :- Need(t, SourcePassword, AsStr);
    var maxListeners :- May(t, MaxListeners, AsU32);
    var meta :- ParseMeta(t);
    var transcode :- May(t, Transcode, AsTranscode);
    var burstSize :- May(t, BurstSize, AsU32);
    Some(MountConfig(path, sourcePassword, maxListeners, meta, transcode, burstSize))
  }

  function ParseAutoDj(t: Table): Option<AutoDjConfig> {
    var mount :- Need(t, Mount, AsStr);
    var folder :- Need(t, Folder, AsStr);
    var meta :- ParseMeta(t);
    var enabled :- Or(t, Enabled, AsBool, true);
    var loopPlaylist :- Or(t, Loop, AsBool, true);
    var order :- Or(t, OrderKey, AsOrder, Shuffle);
    var maxListeners :- May(t, MaxListeners, AsU32);
    var burstSize :- May(t, BurstSize, AsU32);
    var transcode :- Need(t, Transcode, AsTranscode);
    Some(AutoDjConfig(mount, folder, meta, enabled, loopPlaylist, order, maxListeners, burstSize, transcode))
  }

  function ParseRelay(t: Table): Option<RelayConfig> {
    var mount :- Need(t, Mount, AsStr);
    var upstream :- Need(t, Upstream, AsStr);
    var meta :- ParseMeta(t);
    var enabled :- Or(t, Enabled, AsBool, true);
    var username :- May(t, Username, AsStr);
    var password :- May(t, Password, AsStr);
    var maxListeners :- May(t, MaxListeners, AsU32);
    var burstSize :- May(t, BurstSize, AsU32);
    var transcode :- May(t, Transcode, AsTranscode);
    Some(RelayConfig(mount, upstream, meta, enabled, username, password, maxListeners, burstSize, transcode))
  }

  function ParseUser(t: Table): Option<UserConfig> {
    var username :- Need(t, Username, AsStr);
    var passwordBcrypt :- Need(t, PasswordBcrypt, AsStr);
    var role :- Or(t, RoleKey, AsRole, Admin);
    Some(UserConfig(username, passwordBcrypt, role))
  }

  function ParseAll<T>(ts: seq<Table>, parse: Table -> Option<T>): Option<seq<T>> {
    if ts == [] then Some([])
    else
      var first :- parse(ts[0]);
      var rest :- ParseAll(ts[1..], parse);
      Some([first] + rest)
  }

  /** A list of tables that may be absent. */
  function ParseList<T>(t: Table, k: Key, parse: Table -> Option<T>): Option<seq<T>> {
    var ts :- Or(t, k, AsTables, []);
    ParseAll(ts, parse)
  }

  function ParseServer(t: Table): Option<ServerConfig> {
    var streamBind :- Need(t, StreamBind, AsStr);
    var adminBind :- Need(t, AdminBind, AsStr);
    var hostname :- Need(t, Hostname, AsStr);
    Some(ServerConfig(streamBind, adminBind, hostname))
  }

  function ParseLogging(t: Table): Option<LoggingConfig> {
    var level :- Need(t, Level, AsStr);
    var format :- Need(t, Format, AsLogFormat);
    Some(LoggingConfig(level, format))
  }

  function ParseAuth(t: Table): Option<AuthConfig> {
    var users :- ParseList(t, Users, ParseUser);
    var sourcePassword :- May(t, SourcePassword, AsStr);
    Some(AuthConfig(users, sourcePassword))
  }

  function ParseLimits(t: Table): Option<LimitsConfig> {
    var maxListenersGlobal :- Need(t, MaxListenersGlobal, AsU32);
    var ringSize :- Need(t, RingSize, AsU64);
    var slowListenerGraceS :- Need(t, SlowListenerGraceS, AsU64);
    var sourceMaxKbps :- May(t, SourceMaxKbps, AsU32);
    var burstSize :- Or(t, BurstSize, AsU32, 65536);
    Some(LimitsConfig(maxListenersGlobal, ringSize, slowListenerGraceS, sourceMaxKbps, burstSize))
  }

  function ParseTls(t: Table): Option<TlsConfig> {
    var acmeDomain :- May(t, AcmeDomain, AsStr);
    var certCacheDir :- May(t, CertCacheDir, AsStr);
    Some(TlsConfig(acmeDomain, certCacheDir))
  }

  function Section<T>(doc: Table, k: Key, parse: Table -> Option<T>): Option<T> {
    var t :- Need(doc, k, AsTable);
    parse(t)
  }

  function MaySection<T>(doc: Table, k: Key, parse: Table -> Option<T>): Option<Option<T>> {
    if k !in doc then Some(None)
    else
      var v :- Section(doc, k, parse);
      Some(Some(v))
  }

  /** What the parser makes of a document; None when it reports an error. */
  function Parse(doc: Table): Option<Config> {
    var server :- Section(doc, Server, ParseServer);
    var logging :- Section(doc, Logging, ParseLogging);
    var auth :- Section(doc, Auth, ParseAuth);
    var limits :- Section(doc, Limits, ParseLimits);
    var mounts :- ParseList(doc, Mounts, ParseMount);
    var autodjs :- ParseList(doc, AutoDjs, ParseAutoDj);
    var relays :- ParseList(doc, Relays, ParseRelay);
    var tls :- MaySection(doc, Tls, ParseTls);
    var transcode :- MaySection(doc, Transcode, ParseTranscode);
    Some(Config(server, logging, auth, limits, mounts, autodjs, relays, tls, transcode))
  }

  /** What the parser makes of keys that are not there. */
  lemma AbsentAutoDjKeys(t: Table)
    requires ParseAutoDj(t).Some?
    ensures ParseAutoDj(t - {Enabled, Loop, OrderKey}) ==
      Some(ParseAutoDj(t).value.(enabled := true, loopPlaylist := true, order := Shuffle))
  {
  }

  lemma AbsentRelayKeys(t: Table)
    ensures ParseRelay(t).Some? ==> ParseRelay(t - {Enabled}) == Some(ParseRelay(t).value.(enabled := true))
  {
  }

  lemma AbsentLimitsKeys(t: Table)
    ensures ParseLimits(t).Some? ==>
      ParseLimits(t - {BurstSize, SourceMaxKbps}) ==
      Some(ParseLimits(t).value.(burstSize := 65536, sourceMaxKbps := None))
  {
  }

  lemma AbsentKeys(t: Table)
    ensures ParseRelay(t).Some? ==> ParseRelay(t - {Enabled}) == Some(ParseRelay(t).value.(enabled := true))
    ensures ParseUser(t).Some? ==> ParseUser(t - {RoleKey}) == Some(ParseUser(t).value.(role := Admin))
    ensures ParseLimits(t).Some? ==>
      ParseLimits(t - {BurstSize, SourceMaxKbps}) ==
      Some(ParseLimits(t).value.(burstSize := 65536, sourceMaxKbps := None))
  {
    hide ParseRelay, ParseLimits;
    AbsentRelayKeys(t);
    AbsentLimitsKeys(t);
  }

  // ── The patches ───────────────────────────────────────────────────────────

  datatype TranscodeSub = TranscodeSub(format: string, sampleRate: u32, bitrateKbps: u32)

  datatype MountSub = MountSub(
    path: string, sourcePassword: string, maxListeners: Option<u32>, meta: Metadata,
    burstSize: Option<u32>, transcode: Option<TranscodeSub>)

  datatype UserSub = UserSub(username: string, passwordBcrypt: string, role: string)

  datatype AutoDjSub = AutoDjSub(
    mount: string, folder: string, enabled: bool, loopPlaylist: bool, order: string, meta: Metadata,
    maxListeners: Option<u32>, burstSize: Option<u32>, transcode: TranscodeSub)

  datatype RelaySub = RelaySub(
    mount: string, upstream: string, enabled: bool, meta: Metadata, username: Option<string>,
    password: Option<string>, maxListeners: Option<u32>, burstSize: Option<u32>, transcode: Option<TranscodeSub>)

  /** The fields of the server patch; `sourcePassword` is None when the patch leaves
      the authentication table alone. */
  datatype ServerSub = ServerSub(
    server: ServerConfig, level: string, format: string,
    maxListenersGlobal: u32, ringSize: u64, slowListenerGraceS: u64, burstSize: u32, sourceMaxKbps: Option<u32>,
    sourcePassword: Option<string>)

  datatype Patch =
    | ServerPatch(server: ServerSub)
    | TranscodePatch(transcode: Option<TranscodeSub>)
    | MountsPatch(mounts: seq<MountSub>)
    | UsersPatch(users: seq<UserSub>)
    | AutoDjsPatch(autodjs: seq<AutoDjSub>)
    | RelaysPatch(relays: seq<RelaySub>)

  // ── The same patch over a configuration in memory ─────────────────────────

  function FormatOf(s: string): TranscodeFormat { if s == "mp3" then TranscodeFormat.Mp3 else TranscodeFormat.Vorbis }

  function TranscodeOf(t: TranscodeSub): TranscodeConfig {
    TranscodeConfig(FormatOf(t.format), t.sampleRate, t.bitrateKbps)
  }

  function MayTranscodeOf(t: Option<TranscodeSub>): Option<TranscodeConfig> {
    if t.Some? then Some(TranscodeOf(t.value)) else None
  }

  function MountOf(m: MountSub): MountConfig {
    MountConfig(m.path, m.sourcePassword, m.maxListeners, m.meta, MayTranscodeOf(m.transcode), m.burstSize)
  }

  function UserOf(u: UserSub): UserConfig {
    UserConfig(u.username, u.passwordBcrypt, if u.role == "admin" then Admin else Operator)
  }

  function OrderOf(s: string): Order { if s == "sequential" then Sequential else Shuffle }

  function AutoDjOf(a: AutoDjSub): AutoDjConfig {
    AutoDjConfig(
      a.mount, a.folder, a.meta, a.enabled, a.loopPlaylist, OrderOf(a.order),
      a.maxListeners, a.burstSize, TranscodeOf(a.transcode))
  }

  function RelayOf(r: RelaySub): RelayConfig {
    RelayConfig(
      r.mount, r.upstream, r.meta, r.enabled, r.username, r.password, r.maxListeners, r.burstSize,
      MayTranscodeOf(r.transcode))
  }

  function LimitsOf(s: ServerSub): LimitsConfig {
    LimitsConfig(s.maxListenersGlobal, s.ringSize, s.slowListenerGraceS, s.sourceMaxKbps, s.burstSize)
  }

  function LoggingOf(s: ServerSub): LoggingConfig {
    LoggingConfig(s.level, if s.format == "pretty" then Pretty else Json)
  }

  function Map<A, B>(s: seq<A>, f: A -> B): (r: seq<B>)
    ensures |r| == |s| && forall i :: 0 <= i < |s| ==> r[i] == f(s[i])
  {
    seq(|s|, i requires 0 <= i < |s| => f(s[i]))
  }

  function WithSections(c: Config, s: ServerSub): Config {
    c.(server := s.server, logging := LoggingOf(s), limits := LimitsOf(s))
  }

  function WithPassword(c: Config, p: Option<string>): Config {
    if p.Some? then c.(auth := c.auth.(sourcePassword := p)) else c
  }

  /** The candidate configuration a handler builds. */
  function Overlay(c: Config, p: Patch): Config {
    match p
    case ServerPatch(s) => WithPassword(WithSections(c, s), s.sourcePassword)
    case TranscodePatch(t) => c.(transcode := MayTranscodeOf(t))
    case MountsPatch(ms) => c.(mounts := Map(ms, MountOf))
    case UsersPatch(us) => c.(auth := c.auth.(users := Map(us, UserOf)))
    case AutoDjsPatch(djs) => c.(autodjs := Map(djs, AutoDjOf))
    case RelaysPatch(rs) => c.(relays := Map(rs, RelayOf))
  }

  // ── What the writers emit ─────────────────────────────────────────────────

  function OptStr(v: Option<string>): Option<Item> { if v.Some? then Some(Str(v.value)) else None }

  function OptInt(v: Option<u32>): Option<Item> { if v.Some? then Some(Int(v.value)) else None }

  function TranscodeEntry(t: TranscodeSub): Table {
    map[Format := Str(t.format), SampleRate := Int(t.sampleRate), BitrateKbps := Int(t.bitrateKbps)]
  }

  function OptTranscode(t: Option<TranscodeSub>): Option<Item> {
    if t.Some? then Some(Sub(TranscodeEntry(t.value), false)) else None
  }

  /** The table with one key for each field that is present. */
  function TableOf(keys: set<Key>, field: Key -> Option<Item>): (t: Table)
    requires forall k :: field(k).Some? ==> k in keys
    ensures forall k :: Get(t, k) == field(k)
  {
    map k | k in keys && field(k).Some? :: field(k).value
  }

  function MetaField(m: Metadata, k: Key): Option<Item> {
    match k
    case Name => OptStr(m.name)
    case Description => OptStr(m.description)
    case Genre => OptStr(m.genre)
    case Url => OptStr(m.url)
    case _ => None
  }

  function MountField(m: MountSub, k: Key): Option<Item> {
    match k
    case Path => Some(Str(m.path))
    case SourcePassword => Some(Str(m.sourcePassword))
    case MaxListeners => OptInt(m.maxListeners)
    case BurstSize => OptInt(m.burstSize)
    case Transcode => OptTranscode(m.transcode)
    case _ => MetaField(m.meta, k)
  }

  const META_KEYS: set<Key> := {Name, Description, Genre, Url}
  const MOUNT_KEYS: set<Key> := META_KEYS + {Path, SourcePassword, MaxListeners, BurstSize, Transcode}

  function MountEntry(m: MountSub): Table { TableOf(MOUNT_KEYS, k => MountField(m, k)) }

  function UserEntry(u: UserSub): Table {
    map[Username := Str(u.username), PasswordBcrypt := Str(u.passwordBcrypt), RoleKey := Str(u.role)]
  }

  /** Written only when false: the parser defaults it to true. */
  function OnlyFalse(b: bool): Option<Item> { if b then None else Some(Bool(false)) }

  function AutoDjField(a: AutoDjSub, k: Key): Option<Item> {
    match k
    case Mount => Some(Str(a.mount))
    case Folder => Some(Str(a.folder))
    case Enabled => OnlyFalse(a.enabled)
    case Loop => OnlyFalse(a.loopPlaylist)
    case OrderKey => Some(Str(a.order))
    case MaxListeners => OptInt(a.maxListeners)
    case BurstSize => OptInt(a.burstSize)
    case Transcode => OptTranscode(Some(a.transcode))
    case _ => MetaField(a.meta, k)
  }

  const AUTODJ_KEYS: set<Key> :=
    META_KEYS + {Mount, Folder, Enabled, Loop, OrderKey, MaxListeners, BurstSize, Transcode}

  function AutoDjEntry(a: AutoDjSub): Table { TableOf(AUTODJ_KEYS, k => AutoDjField(a, k)) }

  function RelayField(r: RelaySub, k: Key): Option<Item> {
    match k
    case Mount => Some(Str(r.mount))
    case Upstream => Some(Str(r.upstream))
    case Enabled => OnlyFalse(r.enabled)
    case Username => OptStr(r.username)
    case Password => OptStr(r.password)
    case MaxListeners => OptInt(r.maxListeners)
    case BurstSize => OptInt(r.burstSize)
    case Transcode => OptTranscode(r.transcode)
    case _ => MetaField(r.meta, k)
  }

  const RELAY_KEYS: set<Key> :=
    META_KEYS + {Mount, Upstream, Enabled, Username, Password, MaxListeners, BurstSize, Transcode}

  function RelayEntry(r: RelaySub): Table { TableOf(RELAY_KEYS, k => RelayField(r, k)) }

  /** Integers wider than the file format's are written as its largest. */
  function Saturated(n: u64): i64 { if n <= I64_MAX then n else I64_MAX }

  function Ensured(doc: Table, k: Key): Item { if k in doc then doc[k] else Sub(map[], false) }

  /** `table[key] = value`; None when what is there is not a table. */
  function SetIn(x: Item, k: Key, v: Item): Option<Item> {
    if x.Sub? then Some(x.(entries := x.entries[k := v])) else None
  }

  /** Removing a key goes through `as_table_mut`, which an inline table is not. */
  function RemoveIn(x: Item, k: Key): Item {
    if x.Sub? && !x.inline then x.(entries := x.entries - {k}) else x
  }

  function SetOrRemove(x: Item, k: Key, v: Option<Item>): Option<Item> {
    if v.Some? then SetIn(x, k, v.value) else Some(RemoveIn(x, k))
  }

  function PatchServerTable(x: Item, s: ServerSub): Option<Item> {
    var x :- SetIn(x, StreamBind, Str(s.server.streamBind));
    var x :- SetIn(x, AdminBind, Str(s.server.adminBind));
    SetIn(x, Hostname, Str(s.server.hostname))
  }

  function PatchLogging(x: Item, s: ServerSub): Option<Item> {
    var x :- SetIn(x, Level, Str(s.level));
    SetIn(x, Format, Str(s.format))
  }

  function PatchLimits(x: Item, s: ServerSub): Option<Item> {
    var x :- SetIn(x, MaxListenersGlobal, Int(s.maxListenersGlobal));
    var x :- SetIn(x, RingSize, Int(Saturated(s.ringSize)));
    var x :- SetIn(x, SlowListenerGraceS, Int(Saturated(s.slowListenerGraceS)));
    var x :- SetIn(x, BurstSize, Int(s.burstSize));
    SetOrRemove(x, SourceMaxKbps, OptInt(s.sourceMaxKbps))
  }

  function PatchSections(doc: Table, s: ServerSub): Option<Table> {
    var server :- PatchServerTable(Ensured(doc, Server), s);
    var doc := doc[Server := server];
    var logging :- PatchLogging(Ensured(doc, Logging), s);
    var doc := doc[Logging := logging];
    var limits :- PatchLimits(Ensured(doc, Limits), s);
    Some(doc[Limits := limits])
  }

  function PatchPassword(doc: Table, p: Option<string>): Option<Table> {
    if p.None? then Some(doc)
    else
      var auth :- SetIn(Ensured(doc, Auth), SourcePassword, Str(p.value));
      Some(doc[Auth := auth])
  }

  function PatchServer(doc: Table, s: ServerSub): Option<Table> {
    var doc :- PatchSections(doc, s);
    PatchPassword(doc, s.sourcePassword)
  }

  function PatchTranscode(doc: Table, t: Option<TranscodeSub>): Option<Table> {
    if t.None? then Some(doc - {Transcode})
    else
      var x :- SetIn(Ensured(doc, Transcode), Format, Str(t.value.format));
      var x :- SetIn(x, SampleRate, Int(t.value.sampleRate));
      var x :- SetIn(x, BitrateKbps, Int(t.value.bitrateKbps));
      Some(doc[Transcode := x])
  }

  /** Replace a whole list of tables, or remove its key when the list is empty. */
  function PatchList(doc: Table, k: Key, entries: seq<Table>): Table {
    if entries == [] then doc - {k} else doc[k := Tables(entries)]
  }

  /** The users live under `[auth]`, which must be a table of its own. */
  function PatchUsers(doc: Table, us: seq<UserSub>): Option<Table> {
    var auth := Ensured(doc, Auth);
    if !auth.Sub? || auth.inline then None
    else Some(doc[Auth := auth.(entries := PatchList(auth.entries, Users, Map(us, UserEntry)))])
  }

  /** The document after the patch; None when the writer panics. */
  function Patched(doc: Table, p: Patch): Option<Table> {
    match p
    case ServerPatch(s) => PatchServer(doc, s)
    case TranscodePatch(t) => PatchTranscode(doc, t)
    case MountsPatch(ms) => Some(PatchList(doc, Mounts, Map(ms, MountEntry)))
    case UsersPatch(us) => PatchUsers(doc, us)
    case AutoDjsPatch(djs) => Some(PatchList(doc, AutoDjs, Map(djs, AutoDjEntry)))
    case RelaysPatch(rs) => Some(PatchList(doc, Relays, Map(rs, RelayEntry)))
  }

  // ── Agreement of document and memory ──────────────────────────────────────

  predicate GoodFormat(t: TranscodeSub) { t.format == "mp3" || t.format == "vorbis" }

  predicate GoodOrder(s: string) { s == "shuffle" || s == "sequential" }

  predicate MayGoodFormat(t: Option<TranscodeSub>) { t.Some? ==> GoodFormat(t.value) }

  /** The string-typed choices are ones the parser knows. */
  ghost predicate WellTyped(p: Patch) {
    match p
    case ServerPatch(s) => s.format == "pretty" || s.format == "json"
    case TranscodePatch(t) => MayGoodFormat(t)
    case MountsPatch(ms) => forall m :: m in ms ==> MayGoodFormat(m.transcode)
    case UsersPatch(us) => forall u :: u in us ==> u.role == "admin" || u.role == "operator"
    case AutoDjsPatch(djs) =>
      forall a :: a in djs ==> GoodOrder(a.order) && GoodFormat(a.transcode)
    case RelaysPatch(rs) => forall r :: r in rs ==> MayGoodFormat(r.transcode)
  }

  predicate HasMeta(e: Table, m: Metadata) {
    && Get(e, Name) == OptStr(m.name) && Get(e, Description) == OptStr(m.description)
    && Get(e, Genre) == OptStr(m.genre) && Get(e, Url) == OptStr(m.url)
  }

  predicate HasTranscode(x: Option<Item>, t: Option<TranscodeConfig>) {
    if t.None? then x.None? else x.Some? && AsTranscode(x.value) == t
  }

  predicate HasCaps(e: Table, maxListeners: Option<u32>, burstSize: Option<u32>) {
    Get(e, MaxListeners) == OptInt(maxListeners) && Get(e, BurstSize) == OptInt(burstSize)
  }

  /** Each key of `e` says what the field of the mount says. */
  predicate MountFields(e: Table, m: MountConfig) {
    && Get(e, Path) == Some(Str(m.path)) && Get(e, SourcePassword) == Some(Str(m.sourcePassword))
    && HasCaps(e, m.maxListeners, m.burstSize)
    && HasMeta(e, m.meta) && HasTranscode(Get(e, Transcode), m.transcode)
  }

  predicate HasPlaylist(e: Table, a: AutoDjConfig) {
    && Get(e, Enabled).GetOr(Bool(true)) == Bool(a.enabled) && Get(e, Loop).GetOr(Bool(true)) == Bool(a.loopPlaylist)
    && Get(e, OrderKey) == Some(Str(if a.order.Shuffle? then "shuffle" else "sequential"))
  }

  predicate AutoDjFields(e: Table, a: AutoDjConfig) {
    && Get(e, Mount) == Some(Str(a.mount)) && Get(e, Folder) == Some(Str(a.folder)) && HasPlaylist(e, a)
    && HasCaps(e, a.maxListeners, a.burstSize)
    && HasMeta(e, a.meta) && HasTranscode(Get(e, Transcode), Some(a.transcode))
  }

  predicate HasLogin(e: Table, r: RelayConfig) {
    Get(e, Username) == OptStr(r.username) && Get(e, Password) == OptStr(r.password)
  }

  predicate RelayFields(e: Table, r: RelayConfig) {
    && Get(e, Mount) == Some(Str(r.mount)) && Get(e, Upstream) == Some(Str(r.upstream))
    && Get(e, Enabled).GetOr(Bool(true)) == Bool(r.enabled) && HasLogin(e, r)
    && HasCaps(e, r.maxListeners, r.burstSize)
    && HasMeta(e, r.meta) && HasTranscode(Get(e, Transcode), r.transcode)
  }

  lemma MayStr(e: Table, k: Key, v: Option<string>)
    requires Get(e, k) == OptStr(v)
    ensures May(e, k, AsStr) == Some(v)
  {
  }

  lemma MayInt(e: Table, k: Key, v: Option<u32>)
    requires Get(e, k) == OptInt(v)
    ensures May(e, k, AsU32) == Some(v)
  {
  }

  lemma MayBool(e: Table, k: Key, b: bool)
    requires Get(e, k).GetOr(Bool(true)) == Bool(b)
    ensures Or(e, k, AsBool, true) == Some(b)
  {
  }

  lemma MayTranscode(e: Table, t: Option<TranscodeConfig>)
    requires HasTranscode(Get(e, Transcode), t)
    ensures May(e, Transcode, AsTranscode) == Some(t)
    ensures t.Some? ==> Need(e, Transcode, AsTranscode) == t
  {
  }

  lemma ParseMetaFields(e: Table, m: Metadata)
    requires HasMeta(e, m)
    ensures ParseMeta(e) == Some(m)
  {
    MayStr(e, Name, m.name);
    MayStr(e, Description, m.description);
    MayStr(e, Genre, m.genre);
    MayStr(e, Url, m.url);
  }

  lemma ParseMountFields(e: Table, m: MountConfig)
    requires MountFields(e, m)
    ensures ParseMount(e) == Some(m)
  {
    ParseMetaFields(e, m.meta);
    MayInt(e, MaxListeners, m.maxListeners);
    MayInt(e, BurstSize, m.burstSize);
    MayTranscode(e, m.transcode);
  }

  lemma ParseAutoDjFields(e: Table, a: AutoDjConfig)
    requires AutoDjFields(e, a)
    ensures ParseAutoDj(e) == Some(a)
  {
    ParseMetaFields(e, a.meta);
    MayBool(e, Enabled, a.enabled);
    MayBool(e, Loop, a.loopPlaylist);
    MayInt(e, MaxListeners, a.maxListeners);
    MayInt(e, BurstSize, a.burstSize);
    MayTranscode(e, Some(a.transcode));
  }

  lemma ParseRelayFields(e: Table, r: RelayConfig)
    requires RelayFields(e, r)
    ensures ParseRelay(e) == Some(r)
  {
    ParseMetaFields(e, r.meta);
    MayBool(e, Enabled, r.enabled);
    MayStr(e, Username, r.username);
    MayStr(e, Password, r.password);
    MayInt(e, MaxListeners, r.maxListeners);
    MayInt(e, BurstSize, r.burstSize);
    MayTranscode(e, r.transcode);
  }

  lemma TranscodeFields(t: Option<TranscodeSub>)
    requires MayGoodFormat(t)
    ensures HasTranscode(OptTranscode(t), MayTranscodeOf(t))
  {
  }

  lemma MountMeta(e: Table, m: MountSub)
    requires forall k :: Get(e, k) == MountField(m, k)
    ensures HasMeta(e, m.meta)
  {
  }

  lemma MountCaps(e: Table, m: MountSub)
    requires forall k :: Get(e, k) == MountField(m, k)
    ensures HasCaps(e, m.maxListeners, m.burstSize)
  {
  }

  lemma MountShared(e: Table, m: MountSub)
    requires forall k :: Get(e, k) == MountField(m, k)
    ensures HasMeta(e, m.meta)
    ensures HasCaps(e, m.maxListeners, m.burstSize)
  {
    hide MountField, HasMeta, HasCaps;
    MountMeta(e, m);
    MountCaps(e, m);
  }

  lemma MountFieldsFrom(e: Table, m: MountSub)
    requires MayGoodFormat(m.transcode)
    requires forall k :: Get(e, k) == MountField(m, k)
    ensures MountFields(e, MountOf(m))
  {
    MountShared(e, m);
    TranscodeFields(m.transcode);
  }

  lemma MountEntryFields(m: MountSub)
    requires MayGoodFormat(m.transcode)
    ensures MountFields(MountEntry(m), MountOf(m))
  {
    MountFieldsFrom(MountEntry(m), m);
  }

  lemma AutoDjMeta(e: Table, a: AutoDjSub)
    requires forall k :: Get(e, k) == AutoDjField(a, k)
    ensures HasMeta(e, a.meta)
  {
  }

  lemma AutoDjCaps(e: Table, a: AutoDjSub)
    requires forall k :: Get(e, k) == AutoDjField(a, k)
    ensures HasCaps(e, a.maxListeners, a.burstSize)
  {
  }

  lemma AutoDjShared(e: Table, a: AutoDjSub)
    requires forall k :: Get(e, k) == AutoDjField(a, k)
    ensures HasMeta(e, a.meta)
    ensures HasCaps(e, a.maxListeners, a.burstSize)
  {
    hide AutoDjField, HasMeta, HasCaps;
    AutoDjMeta(e, a);
    AutoDjCaps(e, a);
  }

  lemma AutoDjPlaylist(e: Table, a: AutoDjSub)
    requires forall k :: Get(e, k) == AutoDjField(a, k)
    requires GoodOrder(a.order)
    ensures HasPlaylist(e, AutoDjOf(a))
  {
  }

  lemma AutoDjOwn(e: Table, a: AutoDjSub)
    requires forall k :: Get(e, k) == AutoDjField(a, k)
    ensures Get(e, Mount) == Some(Str(a.mount)) && Get(e, Folder) == Some(Str(a.folder))
    ensures Get(e, Transcode) == OptTranscode(Some(a.transcode))
  {
  }

  lemma AutoDjFieldsFrom(e: Table, a: AutoDjSub)
    requires GoodOrder(a.order) && GoodFormat(a.transcode)
    requires forall k :: Get(e, k) == AutoDjField(a, k)
    ensures AutoDjFields(e, AutoDjOf(a))
  {
    AutoDjOwn(e, a);
    AutoDjShared(e, a);
    AutoDjPlaylist(e, a);
    TranscodeFields(Some(a.transcode));
  }

  lemma AutoDjEntryFields(a: AutoDjSub)
    requires GoodOrder(a.order) && GoodFormat(a.transcode)
    ensures AutoDjFields(AutoDjEntry(a), AutoDjOf(a))
  {
    AutoDjFieldsFrom(AutoDjEntry(a), a);
  }

  lemma RelayMeta(e: Table, r: RelaySub)
    requires forall k :: Get(e, k) == RelayField(r, k)
    ensures HasMeta(e, r.meta)
  {
  }

  lemma RelayCaps(e: Table, r: RelaySub)
    requires forall k :: Get(e, k) == RelayField(r, k)
    ensures HasCaps(e, r.maxListeners, r.burstSize)
  {
  }

  lemma RelayShared(e: Table, r: RelaySub)
    requires forall k :: Get(e, k) == RelayField(r, k)
    ensures HasMeta(e, r.meta)
    ensures HasCaps(e, r.maxListeners, r.burstSize)
  {
    hide RelayField, HasMeta, HasCaps;
    RelayMeta(e, r);
    RelayCaps(e, r);
  }

  lemma RelayLogin(e: Table, r: RelaySub)
    requires forall k :: Get(e, k) == RelayField(r, k)
    ensures HasLogin(e, RelayOf(r))
  {
  }

  lemma RelayOwn(e: Table, r: RelaySub)
    requires forall k :: Get(e, k) == RelayField(r, k)
    ensures Get(e, Mount) == Some(Str(r.mount)) && Get(e, Upstream) == Some(Str(r.upstream))
    ensures Get(e, Enabled) == OnlyFalse(r.enabled) && Get(e, Transcode) == OptTranscode(r.transcode)
  {
  }

  lemma RelayFieldsFrom(e: Table, r: RelaySub)
    requires MayGoodFormat(r.transcode)
    requires forall k :: Get(e, k) == RelayField(r, k)
    ensures RelayFields(e, RelayOf(r))
  {
    RelayOwn(e, r);
    RelayShared(e, r);
    RelayLogin(e, r);
    TranscodeFields(r.transcode);
  }

  lemma RelayEntryFields(r: RelaySub)
    requires MayGoodFormat(r.transcode)
    ensures RelayFields(RelayEntry(r), RelayOf(r))
  {
    RelayFieldsFrom(RelayEntry(r), r);
  }

  lemma UserRoundTrip(u: UserSub)
    requires u.role == "admin" || u.role == "operator"
    ensures ParseUser(UserEntry(u)) == Some(UserOf(u))
  {
  }

  lemma {:induction false} ParseAllMap<A, T>(s: seq<A>, entry: A -> Table, parse: Table -> Option<T>, of: A -> T)
    requires forall a :: a in s ==> parse(entry(a)) == Some(of(a))
    ensures ParseAll(Map(s, entry), parse) == Some(Map(s, of))
  {
    if s != [] {
      assert Map(s, entry)[1..] == Map(s[1..], entry);
      ParseAllMap(s[1..], entry, parse, of);
      assert Map(s, of) == [of(s[0])] + Map(s[1..], of);
    }
  }

  /** The sections of the document, one by one. */
  predicate Reads(doc: Table, c: Config) {
    && Section(doc, Server, ParseServer) == Some(c.server)
    && Section(doc, Logging, ParseLogging) == Some(c.logging)
    && Section(doc, Auth, ParseAuth) == Some(c.auth)
    && Section(doc, Limits, ParseLimits) == Some(c.limits)
    && ParseList(doc, Mounts, ParseMount) == Some(c.mounts)
    && ParseList(doc, AutoDjs, ParseAutoDj) == Some(c.autodjs)
    && ParseList(doc, Relays, ParseRelay) == Some(c.relays)
    && MaySection(doc, Tls, ParseTls) == Some(c.tls)
    && MaySection(doc, Transcode, ParseTranscode) == Some(c.transcode)
  }

  lemma ParseReads(doc: Table, c: Config)
    ensures Parse(doc) == Some(c) <==> Reads(doc, c)
  {
  }

  lemma ListAfter<T>(doc: Table, k: Key, entries: seq<Table>, parse: Table -> Option<T>)
    ensures ParseList(PatchList(doc, k, entries), k, parse) == ParseAll(entries, parse)
  {
  }

  lemma MountsAgree(doc: Table, c: Config, ms: seq<MountSub>)
    requires Reads(doc, c) && WellTyped(MountsPatch(ms))
    ensures Reads(PatchList(doc, Mounts, Map(ms, MountEntry)), Overlay(c, MountsPatch(ms)))
  {
    forall m | m in ms ensures ParseMount(MountEntry(m)) == Some(MountOf(m)) {
      MountEntryFields(m);
      ParseMountFields(MountEntry(m), MountOf(m));
    }
    ParseAllMap(ms, MountEntry, ParseMount, MountOf);
    ListAfter(doc, Mounts, Map(ms, MountEntry), ParseMount);
  }

  lemma AutoDjsAgree(doc: Table, c: Config, djs: seq<AutoDjSub>)
    requires Reads(doc, c) && WellTyped(AutoDjsPatch(djs))
    ensures Reads(PatchList(doc, AutoDjs, Map(djs, AutoDjEntry)), Overlay(c, AutoDjsPatch(djs)))
  {
    forall a | a in djs ensures ParseAutoDj(AutoDjEntry(a)) == Some(AutoDjOf(a)) {
      AutoDjEntryFields(a);
      ParseAutoDjFields(AutoDjEntry(a), AutoDjOf(a));
    }
    ParseAllMap(djs, AutoDjEntry, ParseAutoDj, AutoDjOf);
    ListAfter(doc, AutoDjs, Map(djs, AutoDjEntry), ParseAutoDj);
  }

  lemma RelaysAgree(doc: Table, c: Config, rs: seq<RelaySub>)
    requires Reads(doc, c) && WellTyped(RelaysPatch(rs))
    ensures Reads(PatchList(doc, Relays, Map(rs, RelayEntry)), Overlay(c, RelaysPatch(rs)))
  {
    forall r | r in rs ensures ParseRelay(RelayEntry(r)) == Some(RelayOf(r)) {
      RelayEntryFields(r);
      ParseRelayFields(RelayEntry(r), RelayOf(r));
    }
    ParseAllMap(rs, RelayEntry, ParseRelay, RelayOf);
    ListAfter(doc, Relays, Map(rs, RelayEntry), ParseRelay);
  }

  lemma UsersAfter(auth: Table, a: AuthConfig, us: seq<UserSub>)
    requires ParseAuth(auth) == Some(a) && WellTyped(UsersPatch(us))
    ensures ParseAuth(PatchList(auth, Users, Map(us, UserEntry))) == Some(a.(users := Map(us, UserOf)))
  {
    forall u | u in us ensures ParseUser(UserEntry(u)) == Some(UserOf(u)) {
      UserRoundTrip(u);
    }
    ParseAllMap(us, UserEntry, ParseUser, UserOf);
    ListAfter(auth, Users, Map(us, UserEntry), ParseUser);
  }

  lemma UsersAgree(doc: Table, c: Config, us: seq<UserSub>)
    requires Reads(doc, c) && WellTyped(UsersPatch(us)) && !doc[Auth].inline
    ensures PatchUsers(doc, us).Some? && Reads(PatchUsers(doc, us).value, Overlay(c, UsersPatch(us)))
  {
    UsersAfter(doc[Auth].entries, c.auth, us);
  }

  lemma TranscodeAfter(x: Item, t: TranscodeSub)
    requires x.Sub? && GoodFormat(t)
    ensures var y := SetIn(x.(entries := x.entries[Format := Str(t.format)][SampleRate := Int(t.sampleRate)]),
        BitrateKbps, Int(t.bitrateKbps));
      y.Some? && y.value.Sub? && ParseTranscode(y.value.entries) == Some(TranscodeOf(t))
  {
  }

  lemma TranscodeAgrees(doc: Table, c: Config, t: Option<TranscodeSub>)
    requires Reads(doc, c) && WellTyped(TranscodePatch(t))
    ensures PatchTranscode(doc, t).Some? && Reads(PatchTranscode(doc, t).value, Overlay(c, TranscodePatch(t)))
  {
    hide ParseTranscode, TranscodeOf, ParseServer, ParseLogging, ParseAuth, ParseLimits, ParseTls;
    if t.Some? { TranscodeAfter(Ensured(doc, Transcode), t.value); }
  }

  // ── The server patch ──────────────────────────────────────────────────────

  /** The integers the file format can hold. */
  predicate Fits(s: ServerSub) { s.ringSize <= I64_MAX && s.slowListenerGraceS <= I64_MAX }

  /** The patch should remove the rate cap, but the limits are an inline table. */
  predicate KeepsCap(doc: Table, s: ServerSub)
    requires Limits in doc && doc[Limits].Sub?
  {
    doc[Limits].inline && SourceMaxKbps in doc[Limits].entries && s.sourceMaxKbps.None?
  }

  lemma LimitsAfter(x: Item, s: ServerSub)
    requires x.Sub? && ParseLimits(x.entries).Some?
    ensures var y := PatchLimits(x, s);
      && y.Some? && y.value.Sub? && y.value.inline == x.inline
      && (ParseLimits(y.value.entries) == Some(LimitsOf(s)) <==>
          Fits(s) && !(x.inline && SourceMaxKbps in x.entries && s.sourceMaxKbps.None?))
  {
  }

  lemma ServerTableAfter(x: Item, s: ServerSub)
    requires x.Sub?
    ensures var y := PatchServerTable(x, s); y.Some? && y.value.Sub? && ParseServer(y.value.entries) == Some(s.server)
  {
  }

  lemma LoggingAfter(x: Item, s: ServerSub)
    requires x.Sub? && WellTyped(ServerPatch(s))
    ensures var y := PatchLogging(x, s); y.Some? && y.value.Sub? && ParseLogging(y.value.entries) == Some(LoggingOf(s))
  {
  }

  lemma AuthAfter(x: Item, a: AuthConfig, p: string)
    requires x.Sub? && ParseAuth(x.entries) == Some(a)
    ensures var y := SetIn(x, SourcePassword, Str(p));
      y.Some? && y.value.Sub? && ParseAuth(y.value.entries) == Some(a.(sourcePassword := Some(p)))
  {
  }

  lemma ReadsSections(doc: Table, c: Config, s: ServerSub, x: Item, y: Item, z: Item)
    requires Reads(doc, c) && x.Sub? && y.Sub? && z.Sub?
    requires ParseServer(x.entries) == Some(s.server) && ParseLogging(y.entries) == Some(LoggingOf(s))
    ensures var d := doc[Server := x][Logging := y][Limits := z];
      && Section(d, Auth, ParseAuth) == Some(c.auth)
      && (Reads(d, WithSections(c, s)) <==> ParseLimits(z.entries) == Some(LimitsOf(s)))
  {
  }

  lemma SectionsAgree(doc: Table, c: Config, s: ServerSub)
    requires Reads(doc, c) && WellTyped(ServerPatch(s))
    ensures var d := PatchSections(doc, s);
      && d.Some? && Section(d.value, Auth, ParseAuth) == Some(c.auth)
      && (Reads(d.value, WithSections(c, s)) <==> Fits(s) && !KeepsCap(doc, s))
  {
    ServerTableAfter(doc[Server], s);
    LoggingAfter(doc[Logging], s);
    LimitsAfter(doc[Limits], s);
    var x, y, z := PatchServerTable(doc[Server], s), PatchLogging(doc[Logging], s), PatchLimits(doc[Limits], s);
    ReadsSections(doc, c, s, x.value, y.value, z.value);
  }

  lemma PasswordAgrees(doc: Table, c: Config, p: Option<string>)
    requires Section(doc, Auth, ParseAuth) == Some(c.auth)
    ensures var d := PatchPassword(doc, p); d.Some? && (Reads(d.value, WithPassword(c, p)) <==> Reads(doc, c))
  {
    if p.Some? { AuthAfter(doc[Auth], c.auth, p.value); }
  }

  lemma ServerAgrees(doc: Table, c: Config, s: ServerSub)
    requires Reads(doc, c) && WellTyped(ServerPatch(s))
    ensures PatchServer(doc, s).Some?
    ensures Reads(PatchServer(doc, s).value, Overlay(c, ServerPatch(s))) <==> Fits(s) && !KeepsCap(doc, s)
  {
    SectionsAgree(doc, c, s);
    PasswordAgrees(PatchSections(doc, s).value, WithSections(c, s), s.sourcePassword);
  }

  predicate HasTables(doc: Table) { Auth in doc && doc[Auth].Sub? && Limits in doc && doc[Limits].Sub? }

  /** Whether the file can express the patch in the form the document has. */
  predicate Expressible(doc: Table, p: Patch)
    requires HasTables(doc)
  {
    match p
    case ServerPatch(s) => Fits(s) && !KeepsCap(doc, s)
    case UsersPatch(_) => !doc[Auth].inline
    case _ => true
  }

  /** Patching the document and overlaying the configuration in memory agree exactly
      when the file can express the patch. */
  lemma PatchAgreesIff(doc: Table, c: Config, p: Patch)
    requires Parse(doc) == Some(c) && WellTyped(p)
    ensures HasTables(doc)
    ensures Patched(doc, p).Some? && Parse(Patched(doc, p).value) == Some(Overlay(c, p)) <==> Expressible(doc, p)
  {
    ParseReads(doc, c);
    if Patched(doc, p).Some? { ParseReads(Patched(doc, p).value, Overlay(c, p)); }
    match p
    case ServerPatch(s) => ServerAgrees(doc, c, s);
    case TranscodePatch(t) => TranscodeAgrees(doc, c, t);
    case MountsPatch(ms) => MountsAgree(doc, c, ms);
    case UsersPatch(us) => if !doc[Auth].inline { UsersAgree(doc, c, us); }
    case AutoDjsPatch(djs) => AutoDjsAgree(doc, c, djs);
    case RelaysPatch(rs) => RelaysAgree(doc, c, rs);
  }
}
