/** Writing the configuration file: the in-place section writers, the first
    serialization, and the save pipeline that keeps file and server in step. */
module ConfigSave {
  import opened Wrappers
  import opened Config
  import opened ConfigDoc

  // ── The configuration in the writers' own terms ───────────────────────────

  function FormatName(f: TranscodeFormat): string { if f.Mp3? then "mp3" else "vorbis" }

  function TranscodeSubOf(t: TranscodeConfig): (s: TranscodeSub)
    ensures GoodFormat(s) && TranscodeOf(s) == t
  {
    TranscodeSub(FormatName(t.format), t.sampleRate, t.bitrateKbps)
  }

  function MayTranscodeSubOf(t: Option<TranscodeConfig>): (s: Option<TranscodeSub>)
    ensures MayGoodFormat(s) && MayTranscodeOf(s) == t
  {
    if t.Some? then Some(TranscodeSubOf(t.value)) else None
  }

  function MountSubOf(m: MountConfig): (s: MountSub)
    ensures MayGoodFormat(s.transcode) && MountOf(s) == m
  {
    MountSub(m.path, m.sourcePassword, m.maxListeners, m.meta, m.burstSize, MayTranscodeSubOf(m.transcode))
  }

  function UserSubOf(u: UserConfig): (s: UserSub)
    ensures (s.role == "admin" || s.role == "operator") && UserOf(s) == u
  {
    UserSub(u.username, u.passwordBcrypt, if u.role.Admin? then "admin" else "operator")
  }

  function AutoDjSubOf(a: AutoDjConfig): (s: AutoDjSub)
    ensures GoodOrder(s.order) && GoodFormat(s.transcode) && AutoDjOf(s) == a
  {
    AutoDjSub(
      a.mount, a.folder, a.enabled, a.loopPlaylist, if a.order.Shuffle? then "shuffle" else "sequential", a.meta,
      a.maxListeners, a.burstSize, TranscodeSubOf(a.transcode))
  }

  function RelaySubOf(r: RelayConfig): (s: RelaySub)
    ensures MayGoodFormat(s.transcode) && RelayOf(s) == r
  {
    RelaySub(
      r.mount, r.upstream, r.enabled, r.meta, r.username, r.password, r.maxListeners, r.burstSize,
      MayTranscodeSubOf(r.transcode))
  }

  // ── The first serialization ───────────────────────────────────────────────

  /** The serializer writes the booleans that the section writer leaves out. */
  function SerialAutoDjField(a: AutoDjConfig, k: Key): Option<Item> {
    match k
    case Enabled => Some(Bool(a.enabled))
    case Loop => Some(Bool(a.loopPlaylist))
    case _ => AutoDjField(AutoDjSubOf(a), k)
  }

  function SerialRelayField(r: RelayConfig, k: Key): Option<Item> {
    if k.Enabled? then Some(Bool(r.enabled)) else RelayField(RelaySubOf(r), k)
  }

  function SerialMount(m: MountConfig): Table { MountEntry(MountSubOf(m)) }

  function SerialAutoDj(a: AutoDjConfig): Table { TableOf(AUTODJ_KEYS, k => SerialAutoDjField(a, k)) }

  function SerialRelay(r: RelayConfig): Table { TableOf(RELAY_KEYS, k => SerialRelayField(r, k)) }

  function SerialUser(u: UserConfig): Table { UserEntry(UserSubOf(u)) }

  function LimitsField(l: LimitsConfig, k: Key): Option<Item> {
    match k
    case MaxListenersGlobal => Some(Int(l.maxListenersGlobal))
    case RingSize => Some(Int(Saturated(l.ringSize)))
    case SlowListenerGraceS => Some(Int(Saturated(l.slowListenerGraceS)))
    case SourceMaxKbps => OptInt(l.sourceMaxKbps)
    case BurstSize => Some(Int(l.burstSize))
    case _ => None
  }

  function AuthField(a: AuthConfig, k: Key): Option<Item> {
    match k
    case Users => Some(Tables(Map(a.users, SerialUser)))
    case SourcePassword => OptStr(a.sourcePassword)
    case _ => None
  }

  function TlsField(t: TlsConfig, k: Key): Option<Item> {
    match k
    case AcmeDomain => OptStr(t.acmeDomain)
    case CertCacheDir => OptStr(t.certCacheDir)
    case _ => None
  }

  const LIMITS_KEYS: set<Key> := {MaxListenersGlobal, RingSize, SlowListenerGraceS, SourceMaxKbps, BurstSize}

  function ListField<T>(s: seq<T>, entry: T -> Table): Option<Item> {
    if s == [] then None else Some(Tables(Map(s, entry)))
  }

  function ConfigField(c: Config, k: Key): Option<Item> {
    match k
    case Server =>
      Some(Sub(map[StreamBind := Str(c.server.streamBind), AdminBind := Str(c.server.adminBind),
                   Hostname := Str(c.server.hostname)], false))
    case Logging =>
      Some(Sub(map[Level := Str(c.logging.level),
                   Format := Str(if c.logging.format.Pretty? then "pretty" else "json")], false))
    case Auth => Some(Sub(TableOf({Users, SourcePassword}, k => AuthField(c.auth, k)), false))
    case Limits => Some(Sub(TableOf(LIMITS_KEYS, k => LimitsField(c.limits, k)), false))
    case Mounts => Some(Tables(Map(c.mounts, SerialMount)))
    case AutoDjs => ListField(c.autodjs, SerialAutoDj)
    case Relays => ListField(c.relays, SerialRelay)
    case Tls =>
      if c.tls.None? then None
      else Some(Sub(TableOf({AcmeDomain, CertCacheDir}, k => TlsField(c.tls.value, k)), false))
    case Transcode => OptTranscode(MayTranscodeSubOf(c.transcode))
    case _ => None
  }

  const CONFIG_KEYS: set<Key> := {Server, Logging, Auth, Limits, Mounts, AutoDjs, Relays, Tls, Transcode}

  predicate InRange(c: Config) { c.limits.ringSize <= I64_MAX && c.limits.slowListenerGraceS <= I64_MAX }

  /** The whole configuration as a new document; the serializer refuses integers the
      file format cannot hold. */
  function Serialize(c: Config): Option<Table> {
    if InRange(c) then Some(TableOf(CONFIG_KEYS, k => ConfigField(c, k))) else None
  }

  lemma ParseAllSerial<T>(s: seq<T>, entry: T -> Table, parse: Table -> Option<T>)
    requires forall x :: x in s ==> parse(entry(x)) == Some(x)
    ensures ParseAll(Map(s, entry), parse) == Some(s)
  {
    ParseAllMap(s, entry, parse, x => x);
    assert Map(s, x => x) == s;
  }

  lemma SerialMountsParse(ms: seq<MountConfig>)
    ensures ParseAll(Map(ms, SerialMount), ParseMount) == Some(ms)
  {
    forall m | m in ms ensures ParseMount(SerialMount(m)) == Some(m) {
      MountEntryFields(MountSubOf(m));
      ParseMountFields(SerialMount(m), m);
    }
    ParseAllSerial(ms, SerialMount, ParseMount);
  }

  lemma ExplicitBools(e: Table, e': Table, a: AutoDjConfig)
    requires forall k :: k != Enabled && k != Loop ==> Get(e, k) == Get(e', k)
    requires Get(e, Enabled) == Some(Bool(a.enabled)) && Get(e, Loop) == Some(Bool(a.loopPlaylist))
    requires AutoDjFields(e', a)
    ensures AutoDjFields(e, a)
  {
  }

  lemma SerialDiffers(e: Table, a: AutoDjConfig)
    requires forall k :: Get(e, k) == SerialAutoDjField(a, k)
    ensures forall k :: k != Enabled && k != Loop ==> Get(e, k) == Get(AutoDjEntry(AutoDjSubOf(a)), k)
    ensures Get(e, Enabled) == Some(Bool(a.enabled)) && Get(e, Loop) == Some(Bool(a.loopPlaylist))
  {
    forall k | k != Enabled && k != Loop ensures Get(e, k) == Get(AutoDjEntry(AutoDjSubOf(a)), k) {
      assert SerialAutoDjField(a, k) == AutoDjField(AutoDjSubOf(a), k);
    }
  }

  lemma SerialAutoDjFields(a: AutoDjConfig)
    ensures AutoDjFields(SerialAutoDj(a), a)
  {
    AutoDjEntryFields(AutoDjSubOf(a));
    SerialDiffers(SerialAutoDj(a), a);
    ExplicitBools(SerialAutoDj(a), AutoDjEntry(AutoDjSubOf(a)), a);
  }

  lemma SerialAutoDjsParse(djs: seq<AutoDjConfig>)
    ensures ParseAll(Map(djs, SerialAutoDj), ParseAutoDj) == Some(djs)
  {
    forall a | a in djs ensures ParseAutoDj(SerialAutoDj(a)) == Some(a) {
      SerialAutoDjFields(a);
      ParseAutoDjFields(SerialAutoDj(a), a);
    }
    ParseAllSerial(djs, SerialAutoDj, ParseAutoDj);
  }

  lemma SerialRelayFields(e: Table, r: RelayConfig)
    requires forall k :: Get(e, k) == SerialRelayField(r, k)
    ensures RelayFields(e, r)
  {
    var e' := RelayEntry(RelaySubOf(r));
    RelayEntryFields(RelaySubOf(r));
    assert forall k :: k != Enabled ==> Get(e, k) == Get(e', k);
  }

  lemma SerialRelaysParse(rs: seq<RelayConfig>)
    ensures ParseAll(Map(rs, SerialRelay), ParseRelay) == Some(rs)
  {
    forall r | r in rs ensures ParseRelay(SerialRelay(r)) == Some(r) {
      SerialRelayFields(SerialRelay(r), r);
      ParseRelayFields(SerialRelay(r), r);
    }
    ParseAllSerial(rs, SerialRelay, ParseRelay);
  }

  lemma SerialAuthParses(e: Table, a: AuthConfig)
    requires forall k :: Get(e, k) == AuthField(a, k)
    ensures ParseAuth(e) == Some(a)
  {
    forall u | u in a.users ensures ParseUser(SerialUser(u)) == Some(u) {
      UserRoundTrip(UserSubOf(u));
    }
    ParseAllSerial(a.users, SerialUser, ParseUser);
    assert Get(e, Users) == AuthField(a, Users);
    MayStr(e, SourcePassword, a.sourcePassword);
  }

  lemma SerialLimitsParse(e: Table, l: LimitsConfig)
    requires forall k :: Get(e, k) == LimitsField(l, k)
    ensures ParseLimits(e) == Some(l) <==> l.ringSize <= I64_MAX && l.slowListenerGraceS <= I64_MAX
  {
    MayInt(e, SourceMaxKbps, l.sourceMaxKbps);
    assert Get(e, MaxListenersGlobal) == LimitsField(l, MaxListenersGlobal);
    assert Get(e, BurstSize) == LimitsField(l, BurstSize);
    assert Get(e, RingSize) == LimitsField(l, RingSize);
    assert Get(e, SlowListenerGraceS) == LimitsField(l, SlowListenerGraceS);
  }

  lemma SerialTlsParses(e: Table, t: TlsConfig)
    requires forall k :: Get(e, k) == TlsField(t, k)
    ensures ParseTls(e) == Some(t)
  {
    MayStr(e, AcmeDomain, t.acmeDomain);
    MayStr(e, CertCacheDir, t.certCacheDir);
  }

  lemma SerialHead(e: Table, c: Config)
    requires Get(e, Server) == ConfigField(c, Server) && Get(e, Logging) == ConfigField(c, Logging)
    ensures Section(e, Server, ParseServer) == Some(c.server)
    ensures Section(e, Logging, ParseLogging) == Some(c.logging)
  {
  }

  lemma SerialBody(e: Table, c: Config)
    requires InRange(c)
    requires Get(e, Auth) == ConfigField(c, Auth) && Get(e, Limits) == ConfigField(c, Limits)
    ensures Section(e, Auth, ParseAuth) == Some(c.auth)
    ensures Section(e, Limits, ParseLimits) == Some(c.limits)
    ensures NoInline(e)
  {
    SerialAuthParses(e[Auth].entries, c.auth);
    SerialLimitsParse(e[Limits].entries, c.limits);
  }

  lemma ListParses<T>(e: Table, k: Key, s: seq<T>, entry: T -> Table, parse: Table -> Option<T>)
    requires Get(e, k) == ListField(s, entry) || Get(e, k) == Some(Tables(Map(s, entry)))
    requires ParseAll(Map(s, entry), parse) == Some(s)
    ensures ParseList(e, k, parse) == Some(s)
  {
  }

  lemma SerialMounts(e: Table, c: Config)
    requires Get(e, Mounts) == Some(Tables(Map(c.mounts, SerialMount)))
    ensures ParseList(e, Mounts, ParseMount) == Some(c.mounts)
  {
    SerialMountsParse(c.mounts);
    ListParses(e, Mounts, c.mounts, SerialMount, ParseMount);
  }

  lemma SerialAutoDjs(e: Table, c: Config)
    requires Get(e, AutoDjs) == ListField(c.autodjs, SerialAutoDj)
    ensures ParseList(e, AutoDjs, ParseAutoDj) == Some(c.autodjs)
  {
    SerialAutoDjsParse(c.autodjs);
    ListParses(e, AutoDjs, c.autodjs, SerialAutoDj, ParseAutoDj);
  }

  lemma SerialRelays(e: Table, c: Config)
    requires Get(e, Relays) == ListField(c.relays, SerialRelay)
    ensures ParseList(e, Relays, ParseRelay) == Some(c.relays)
  {
    SerialRelaysParse(c.relays);
    ListParses(e, Relays, c.relays, SerialRelay, ParseRelay);
  }

  lemma MountsField(e: Table, c: Config)
    requires Get(e, Mounts) == ConfigField(c, Mounts)
    ensures Get(e, Mounts) == Some(Tables(Map(c.mounts, SerialMount)))
  {
  }

  lemma MountsRead(e: Table, c: Config)
    requires Get(e, Mounts) == ConfigField(c, Mounts)
    ensures ParseList(e, Mounts, ParseMount) == Some(c.mounts)
  {
    MountsField(e, c);
    SerialMounts(e, c);
  }

  lemma AutoDjsField(e: Table, c: Config)
    requires Get(e, AutoDjs) == ConfigField(c, AutoDjs)
    ensures Get(e, AutoDjs) == ListField(c.autodjs, SerialAutoDj)
  {
  }

  lemma AutoDjsRead(e: Table, c: Config)
    requires Get(e, AutoDjs) == ConfigField(c, AutoDjs)
    ensures ParseList(e, AutoDjs, ParseAutoDj) == Some(c.autodjs)
  {
    AutoDjsField(e, c);
    SerialAutoDjs(e, c);
  }

  lemma RelaysField(e: Table, c: Config)
    requires Get(e, Relays) == ConfigField(c, Relays)
    ensures Get(e, Relays) == ListField(c.relays, SerialRelay)
  {
  }

  lemma RelaysRead(e: Table, c: Config)
    requires Get(e, Relays) == ConfigField(c, Relays)
    ensures ParseList(e, Relays, ParseRelay) == Some(c.relays)
  {
    RelaysField(e, c);
    SerialRelays(e, c);
  }

  lemma SerialTls(e: Table, c: Config)
    requires Get(e, Tls) == ConfigField(c, Tls)
    ensures MaySection(e, Tls, ParseTls) == Some(c.tls)
  {
    if c.tls.Some? { SerialTlsParses(e[Tls].entries, c.tls.value); }
  }

  lemma SerialTranscode(e: Table, c: Config)
    requires Get(e, Transcode) == ConfigField(c, Transcode)
    ensures MaySection(e, Transcode, ParseTranscode) == Some(c.transcode)
  {
    TranscodeFields(MayTranscodeSubOf(c.transcode));
  }

  /** The document whose fields are the configuration's reads as that configuration. */
  lemma SerialReads(e: Table, c: Config)
    requires InRange(c) && forall k :: Get(e, k) == ConfigField(c, k)
    ensures Reads(e, c) && NoInline(e)
  {
    SerialHead(e, c);
    SerialBody(e, c);
    MountsRead(e, c);
    AutoDjsRead(e, c);
    RelaysRead(e, c);
    SerialTls(e, c);
    SerialTranscode(e, c);
  }

  /** Parsing inverts the first serialization, and no section of it is inline. */
  lemma ParseInvertsSerialize(c: Config)
    requires Serialize(c).Some?
    ensures Parse(Serialize(c).value) == Some(c) && NoInline(Serialize(c).value)
  {
    SerialReads(Serialize(c).value, c);
    ParseReads(Serialize(c).value, c);
  }

  predicate NoInline(doc: Table) { HasTables(doc) && !doc[Auth].inline && !doc[Limits].inline }

  // ── Saving ────────────────────────────────────────────────────────────────

  lemma OverlayTwice(c: Config, p: Patch)
    ensures Overlay(Overlay(c, p), p) == Overlay(c, p)
  {
  }

  predicate PatchInRange(p: Patch) { p.ServerPatch? ==> Fits(p.server) }

  /** The document that a save writes: the patched file, or, when there is none, the
      patched serialization of the candidate. None when the save fails before. */
  function ToWrite(disk: Option<Table>, candidate: Config, p: Patch): Option<Table> {
    var doc :- if disk.Some? then disk else Serialize(candidate);
    Patched(doc, p)
  }

  /** File and server are in step: what is on disk parses to what is running. */
  predicate InStep(disk: Option<Table>, c: Config) { disk.Some? ==> Parse(disk.value) == Some(c) }

  /** Whether a save of `p` over this file, or over none, says what the candidate says. */
  predicate Savable(disk: Option<Table>, c: Config, p: Patch)
    requires disk.Some? ==> HasTables(disk.value)
  {
    if disk.Some? then Expressible(disk.value, p) else InRange(Overlay(c, p))
  }

  /** A save writes a file that parses to the candidate exactly when the file in
      place can express the patch; one written for the first time always does. */
  lemma WrittenIff(disk: Option<Table>, c: Config, p: Patch)
    requires InStep(disk, c) && WellTyped(p)
    ensures disk.Some? ==> HasTables(disk.value)
    ensures var w := ToWrite(disk, Overlay(c, p), p);
      w.Some? && Parse(w.value) == Some(Overlay(c, p)) <==> Savable(disk, c, p)
  {
    if disk.Some? {
      PatchAgreesIff(disk.value, c, p);
    } else if InRange(Overlay(c, p)) {
      ParseInvertsSerialize(Overlay(c, p));
      PatchAgreesIff(Serialize(Overlay(c, p)).value, Overlay(c, p), p);
      OverlayTwice(c, p);
    }
  }

  /** When the server refuses a candidate that is already on disk, the two stay in
      step only if the candidate was the running configuration. */
  lemma RefusedIff(disk: Option<Table>, c: Config, p: Patch)
    requires InStep(disk, c) && WellTyped(p)
    ensures disk.Some? ==> HasTables(disk.value)
    ensures Savable(disk, c, p) ==>
      (InStep(ToWrite(disk, Overlay(c, p), p), c) <==> Overlay(c, p) == c)
  {
    WrittenIff(disk, c, p);
  }

  // ── What a file says, whatever its form ───────────────────────────────────

  /** A file as a save sees it: the configuration it says, and which of the two tables
      that matter are written inline. */
  datatype FileState = FileState(says: Config, inlineLimits: bool, inlineAuth: bool)

  function Shape(doc: Table): Option<FileState> {
    var c :- Parse(doc);
    if HasTables(doc) then Some(FileState(c, doc[Limits].inline, doc[Auth].inline)) else None
  }

  /** The patch that the file ends up with: integers saturate, and an inline table keeps
      a rate cap that should go. */
  function Expressed(f: FileState, p: Patch): Patch {
    if !p.ServerPatch? then p
    else
      var s := p.server;
      ServerPatch(s.(
        ringSize := Saturated(s.ringSize), slowListenerGraceS := Saturated(s.slowListenerGraceS),
        sourceMaxKbps :=
          if s.sourceMaxKbps.None? && f.inlineLimits then f.says.limits.sourceMaxKbps else s.sourceMaxKbps))
  }

  lemma ParsedHasTables(doc: Table)
    requires Parse(doc).Some?
    ensures HasTables(doc) && Shape(doc) == Some(FileState(Parse(doc).value, doc[Limits].inline, doc[Auth].inline))
  {
  }

  lemma CapInFile(t: Table, l: LimitsConfig)
    requires ParseLimits(t) == Some(l)
    ensures Get(t, SourceMaxKbps) == OptInt(l.sourceMaxKbps)
  {
  }

  lemma CapOfFile(doc: Table, f: FileState)
    requires Shape(doc) == Some(f)
    ensures HasTables(doc) && Get(doc[Limits].entries, SourceMaxKbps) == OptInt(f.says.limits.sourceMaxKbps)
  {
    hide ParseLimits;
    ParseReads(doc, f.says);
    CapInFile(doc[Limits].entries, f.says.limits);
  }

  lemma SameLimitsPatch(x: Item, s: ServerSub, t: ServerSub)
    requires x.Sub? && t == s.(
      ringSize := Saturated(s.ringSize), slowListenerGraceS := Saturated(s.slowListenerGraceS),
      sourceMaxKbps := t.sourceMaxKbps)
    requires t.sourceMaxKbps == s.sourceMaxKbps
      || (x.inline && s.sourceMaxKbps.None? && Get(x.entries, SourceMaxKbps) == OptInt(t.sourceMaxKbps))
    ensures PatchLimits(x, s) == PatchLimits(x, t)
  {
    var y := x.entries[MaxListenersGlobal := Int(s.maxListenersGlobal)][RingSize := Int(Saturated(s.ringSize))]
      [SlowListenerGraceS := Int(Saturated(s.slowListenerGraceS))][BurstSize := Int(s.burstSize)];
    if t.sourceMaxKbps.Some? { assert Get(y, SourceMaxKbps) == Get(x.entries, SourceMaxKbps); }
    if t.sourceMaxKbps.Some? && s.sourceMaxKbps.None? { SetToSame(y, SourceMaxKbps, Int(t.sourceMaxKbps.value)); }
  }

  lemma SetToSame(t: Table, k: Key, v: Item)
    requires Get(t, k) == Some(v)
    ensures t[k := v] == t
  {
  }

  /** The writers cannot tell the two patches apart. */
  lemma SamePatched(doc: Table, f: FileState, p: Patch)
    requires Shape(doc) == Some(f)
    ensures Patched(doc, Expressed(f, p)) == Patched(doc, p)
  {
    if p.ServerPatch? {
      CapOfFile(doc, f);
      SameLimitsPatch(doc[Limits], p.server, Expressed(f, p).server);
      SameServerPatch(doc, p.server, Expressed(f, p).server);
    }
  }

  lemma SameServerPatch(doc: Table, s: ServerSub, t: ServerSub)
    requires Limits in doc && PatchLimits(doc[Limits], s) == PatchLimits(doc[Limits], t)
    requires s.server == t.server && s.level == t.level && s.format == t.format && s.sourcePassword == t.sourcePassword
    ensures PatchServer(doc, s) == PatchServer(doc, t)
  {
    hide PatchLimits;
  }

  lemma ExpressedFits(doc: Table, f: FileState, p: Patch)
    requires Shape(doc) == Some(f)
    ensures HasTables(doc) && (Expressible(doc, Expressed(f, p)) <==> !(p.UsersPatch? && f.inlineAuth))
    ensures Expressible(doc, p) && PatchInRange(p) ==> Expressed(f, p) == p
  {
    CapOfFile(doc, f);
  }

  lemma ExpressedWellTyped(f: FileState, p: Patch)
    requires WellTyped(p)
    ensures WellTyped(Expressed(f, p))
  {
  }

  /** Whatever the file's form and the patch's values: the save panics exactly for users
      under an inline `[auth]`, and else the file says the patch it can express, laid over
      what it said before. */
  lemma PatchedSays(doc: Table, f: FileState, p: Patch)
    requires Shape(doc) == Some(f) && WellTyped(p)
    ensures Patched(doc, p).Some? <==> !(p.UsersPatch? && f.inlineAuth)
    ensures Patched(doc, p).Some? ==>
      Shape(Patched(doc, p).value) == Some(f.(says := Overlay(f.says, Expressed(f, p))))
  {
    hide Parse, Patched, Overlay, Expressible, Expressed, WellTyped;
    SamePatched(doc, f, p);
    ExpressedFits(doc, f, p);
    ExpressedWellTyped(f, p);
    PatchAgreesIff(doc, f.says, Expressed(f, p));
    if p.UsersPatch? && doc[Auth].inline { UsersPanic(doc, p); }
    if Patched(doc, p).Some? {
      ParsedHasTables(Patched(doc, p).value);
      PatchedKeepsInline(doc, p);
    }
  }

  lemma UsersPanic(doc: Table, p: Patch)
    requires HasTables(doc) && p.UsersPatch? && doc[Auth].inline
    ensures Patched(doc, p).None?
  {
  }

  lemma ServerKeepsInline(doc: Table, s: ServerSub)
    requires HasTables(doc) && PatchServer(doc, s).Some? && HasTables(PatchServer(doc, s).value)
    ensures var d := PatchServer(doc, s).value;
      d[Limits].inline == doc[Limits].inline && d[Auth].inline == doc[Auth].inline
  {
    hide PatchServerTable, PatchLogging, PatchLimits;
    LimitsKeepInline(doc[Limits], s);
  }

  lemma LimitsKeepInline(x: Item, s: ServerSub)
    requires x.Sub?
    ensures PatchLimits(x, s).Some? ==> PatchLimits(x, s).value.Sub? && PatchLimits(x, s).value.inline == x.inline
  {
  }

  lemma PatchedKeepsInline(doc: Table, p: Patch)
    requires HasTables(doc) && Patched(doc, p).Some? && HasTables(Patched(doc, p).value)
    ensures var d := Patched(doc, p).value; d[Limits].inline == doc[Limits].inline && d[Auth].inline == doc[Auth].inline
  {
    match p
    case ServerPatch(s) => ServerKeepsInline(doc, s);
    case _ =>
  }

  // ── When file and server part ─────────────────────────────────────────────

  /** Two saves whose candidates were built from the same configuration `c`: the file
      gets both patches, the server only the second one over `c`. They stay in step
      exactly when the first patch makes no difference under the second. */
  lemma OverlappingSavesIff(disk: Option<Table>, c: Config, p1: Patch, p2: Patch)
    requires InStep(disk, c) && WellTyped(p1) && WellTyped(p2)
    requires (disk.Some? ==> HasTables(disk.value)) && Savable(disk, c, p1)
    ensures ToWrite(disk, Overlay(c, p1), p1).Some?
    ensures var w := ToWrite(disk, Overlay(c, p1), p1).value;
      && HasTables(w)
      && (Expressible(w, p2) ==>
        (InStep(ToWrite(Some(w), Overlay(c, p2), p2), Overlay(c, p2)) <==>
          Overlay(Overlay(c, p1), p2) == Overlay(c, p2)))
  {
    WrittenIff(disk, c, p1);
    var w := ToWrite(disk, Overlay(c, p1), p1);
    WrittenIff(w, Overlay(c, p1), p2);
  }

  /** The same file with its limits written inline. */
  function Inlined(doc: Table): Table
    requires HasTables(doc)
  {
    doc[Limits := Sub(doc[Limits].entries, true)]
  }

  /** Such a file says the same, but keeps a rate cap that a patch removes. */
  lemma InlineLimitsKeepCap(doc: Table, c: Config, s: ServerSub)
    requires Parse(doc) == Some(c) && c.limits.sourceMaxKbps.Some?
    requires s.sourceMaxKbps.None? && WellTyped(ServerPatch(s))
    ensures HasTables(doc) && Parse(Inlined(doc)) == Some(c) && HasTables(Inlined(doc))
    ensures !Expressible(Inlined(doc), ServerPatch(s))
  {
    ParseReads(doc, c);
    SameLimits(doc, c);
    ParseReads(Inlined(doc), c);
    CapIsThere(doc[Limits].entries, c.limits);
  }

  lemma SameLimits(doc: Table, c: Config)
    requires Reads(doc, c)
    ensures HasTables(doc) && Reads(Inlined(doc), c)
  {
  }

  lemma CapIsThere(t: Table, l: LimitsConfig)
    requires ParseLimits(t) == Some(l) && l.sourceMaxKbps.Some?
    ensures SourceMaxKbps in t
  {
  }

  /** The same file with its authentication table written inline says the same, but has
      no place for a list of users. */
  lemma InlineAuthPanics(doc: Table, c: Config, us: seq<UserSub>)
    requires Parse(doc) == Some(c)
    ensures HasTables(doc)
    ensures var inlined := doc[Auth := Sub(doc[Auth].entries, true)];
      Parse(inlined) == Some(c) && Patched(inlined, UsersPatch(us)).None?
  {
    ParseReads(doc, c);
    SameAuth(doc, c);
    ParseReads(doc[Auth := Sub(doc[Auth].entries, true)], c);
  }

  lemma SameAuth(doc: Table, c: Config)
    requires Reads(doc, c)
    ensures HasTables(doc) && Reads(doc[Auth := Sub(doc[Auth].entries, true)], c)
  {
  }

  // ── One input each ────────────────────────────────────────────────────────

  const SAMPLE: Config := Config(
    ServerConfig("0.0.0.0:8000", "127.0.0.1:8001", "localhost"), LoggingConfig("info", Pretty),
    AuthConfig([], None), LimitsConfig(100, 8, 5, None, 65536), [], [], [], None, None)

  const SAMPLE_TRANSCODE: Patch := TranscodePatch(Some(TranscodeSub("mp3", 44_100, 128)))

  /** A transcode block that the server refuses stays in the file. */
  lemma RefusedSaveParts()
    ensures var disk := Serialize(SAMPLE);
      && disk.Some? && InStep(disk, SAMPLE)
      && !InStep(ToWrite(disk, Overlay(SAMPLE, SAMPLE_TRANSCODE), SAMPLE_TRANSCODE), SAMPLE)
  {
    hide Parse, Patched;
    ParseInvertsSerialize(SAMPLE);
    RefusedIff(Serialize(SAMPLE), SAMPLE, SAMPLE_TRANSCODE);
  }

  /** A transcode block and a list of mounts saved from one snapshot: the file has both,
      the server only the second. */
  lemma OverlappingSavesPart()
    ensures var disk, p := Serialize(SAMPLE), MountsPatch([]);
      var w := ToWrite(disk, Overlay(SAMPLE, SAMPLE_TRANSCODE), SAMPLE_TRANSCODE);
      && disk.Some? && InStep(disk, SAMPLE) && w.Some?
      && !InStep(ToWrite(w, Overlay(SAMPLE, p), p), Overlay(SAMPLE, p))
  {
    hide Parse, Patched;
    ParseInvertsSerialize(SAMPLE);
    OverlappingSavesIff(Serialize(SAMPLE), SAMPLE, SAMPLE_TRANSCODE, MountsPatch([]));
  }

  /** A ring of 2^63 packets is saved as one packet less. */
  lemma LargeRingIsCut()
    ensures var doc := Serialize(SAMPLE).GetOr(map[]);
      var s := ServerSub(SAMPLE.server, "info", "pretty", 100, 0x8000_0000_0000_0000, 5, 65536, None, None);
      var w := Patched(doc, ServerPatch(s));
      && w.Some? && Parse(w.value) == Some(SAMPLE.(limits := SAMPLE.limits.(ringSize := 0x7fff_ffff_ffff_ffff)))
      && Parse(w.value) != Some(Overlay(SAMPLE, ServerPatch(s)))
  {
    hide Parse, Patched;
    ParseInvertsSerialize(SAMPLE);
    var s := ServerSub(SAMPLE.server, "info", "pretty", 100, 0x8000_0000_0000_0000, 5, 65536, None, None);
    var doc := Serialize(SAMPLE).value;
    ParsedHasTables(doc);
    PatchedSays(doc, FileState(SAMPLE, false, false), ServerPatch(s));
    if Patched(doc, ServerPatch(s)).Some? { ShapeParses(Patched(doc, ServerPatch(s)).value); }
  }

  lemma ShapeParses(doc: Table)
    ensures Shape(doc).Some? <==> Parse(doc).Some?
    ensures Shape(doc).Some? ==> Parse(doc) == Some(Shape(doc).value.says)
  {
    if Parse(doc).Some? { ParsedHasTables(doc); }
  }
}
