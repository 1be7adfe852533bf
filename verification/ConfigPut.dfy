/** The section handlers: how a request body becomes a patch, and what writing back
    the redacted configuration does. */
module ConfigPut {
  import opened Wrappers
  import Unicode
  import opened Config
  import opened ConfigDoc
  import opened ConfigSave

  const REDACTED := "***"

  // ── Text ──────────────────────────────────────────────────────────────────

  /** What `trim` strips. */
  predicate IsSpace(c: char) { Unicode.IsWhiteSpace(c as int) }

  function TrimStart(s: string): string {
    if s != "" && IsSpace(s[0]) then TrimStart(s[1..]) else s
  }

  function TrimEnd(s: string): string {
    if s != "" && IsSpace(s[|s| - 1]) then TrimEnd(s[..|s| - 1]) else s
  }

  function Trim(s: string): string { TrimEnd(TrimStart(s)) }

  lemma {:induction false} TrimStartIs(s: string)
    ensures |TrimStart(s)| <= |s| && TrimStart(s) == s[|s| - |TrimStart(s)|..]
    ensures forall i :: 0 <= i < |s| - |TrimStart(s)| ==> IsSpace(s[i])
    ensures TrimStart(s) != "" ==> !IsSpace(TrimStart(s)[0])
  {
    hide IsSpace;
    if s != "" && IsSpace(s[0]) {
      TrimStartIs(s[1..]);
      var n := |TrimStart(s)|;
      assert s[1..][|s| - 1 - n..] == s[|s| - n..];
      forall i | 0 < i < |s| - n ensures IsSpace(s[i]) { assert s[i] == s[1..][i - 1]; }
    } else {
      assert s[0..] == s;
    }
  }

  lemma {:induction false} TrimEndIs(s: string)
    ensures TrimEnd(s) <= s
    ensures forall i :: |TrimEnd(s)| <= i < |s| ==> IsSpace(s[i])
    ensures TrimEnd(s) != "" ==> !IsSpace(TrimEnd(s)[|TrimEnd(s)| - 1])
  {
    hide IsSpace;
    if s != "" && IsSpace(s[|s| - 1]) {
      TrimEndIs(s[..|s| - 1]);
      forall i | |TrimEnd(s)| <= i < |s| - 1 ensures IsSpace(s[i]) { assert s[i] == s[..|s| - 1][i]; }
    }
  }

  /** A text is white space, its trimmed form, and white space, and the trimmed form
      neither starts nor ends in any. */
  lemma TrimIs(s: string) returns (a: nat, b: nat)
    ensures a <= b <= |s| && Trim(s) == s[a..b]
    ensures forall i :: 0 <= i < a || b <= i < |s| ==> IsSpace(s[i])
    ensures Trim(s) != "" ==> !IsSpace(s[a]) && !IsSpace(s[b - 1])
  {
    hide IsSpace, TrimStart, TrimEnd;
    TrimStartIs(s);
    TrimEndIs(TrimStart(s));
    a := |s| - |TrimStart(s)|;
    b := a + |Trim(s)|;
    forall i | a <= i < |s| ensures s[i] == TrimStart(s)[i - a] {}
  }

  // ── Section validators ────────────────────────────────────────────────────

  const MAX_BURST := 16 * 1024 * 1024

  predicate BurstOk(b: Option<u32>) { b.Some? ==> b.value <= MAX_BURST }

  predicate TranscodeOk(t: TranscodeSub) {
    GoodFormat(t) && 0 < t.sampleRate <= 192_000 && 0 < t.bitrateKbps <= 512
  }

  predicate MayTranscodeOk(t: Option<TranscodeSub>) { t.Some? ==> TranscodeOk(t.value) }

  predicate PathOk(p: string) { Trim(p) != "" && p != "" && p[0] == '/' }

  predicate MountOk(m: MountSub) {
    && PathOk(m.path) && Trim(m.sourcePassword) != "" && m.maxListeners != Some(0)
    && BurstOk(m.burstSize) && MayTranscodeOk(m.transcode)
  }

  predicate UserOk(u: UserSub) {
    Trim(u.username) != "" && u.passwordBcrypt != "" && (u.role == "admin" || u.role == "operator")
  }

  predicate AutoDjOk(a: AutoDjSub) {
    && PathOk(a.mount) && Trim(a.folder) != "" && GoodOrder(a.order) && a.maxListeners != Some(0)
    && BurstOk(a.burstSize) && TranscodeOk(a.transcode)
  }

  /** Half-set credentials are refused unless the half that is set is empty. */
  predicate LoginOk(username: Option<string>, password: Option<string>) {
    && (username.Some? && password.None? ==> username.value == "")
    && (username.None? && password.Some? ==> password.value == "")
  }

  predicate RelaySubOk(r: RelaySub) {
    && PathOk(r.mount) && (StartsWith(r.upstream, "http://") || StartsWith(r.upstream, "https://"))
    && LoginOk(r.username, r.password) && r.maxListeners != Some(0)
    && BurstOk(r.burstSize) && MayTranscodeOk(r.transcode)
  }

  predicate ServerOk(s: ServerSub) {
    && s.ringSize != 0 && s.maxListenersGlobal != 0 && s.burstSize <= MAX_BURST
    && (s.format == "pretty" || s.format == "json") && Trim(s.server.hostname) != "" && Trim(s.level) != ""
  }

  function MountKey(m: MountSub): string { m.path }
  function UserKey(u: UserSub): string { u.username }
  function AutoDjKey(a: AutoDjSub): string { a.mount }
  function RelayKey(r: RelaySub): string { r.mount }

  /** Every entry is fine by itself, and no two have the same key. */
  ghost predicate AllValid<T>(xs: seq<T>, key: T -> string, ok: T -> bool) {
    (forall x :: x in xs ==> ok(x)) && Distinct(Map(xs, key))
  }

  predicate HasAdmin(us: seq<UserSub>) { exists u :: u in us && u.role == "admin" }

  /** What the validator of the patch's section accepts. */
  ghost predicate Valid(p: Patch) {
    match p
    case ServerPatch(s) => ServerOk(s)
    case TranscodePatch(t) => MayTranscodeOk(t)
    case MountsPatch(ms) => AllValid(ms, MountKey, MountOk)
    case UsersPatch(us) => AllValid(us, UserKey, UserOk) && HasAdmin(us)
    case AutoDjsPatch(djs) => AllValid(djs, AutoDjKey, AutoDjOk)
    case RelaysPatch(rs) => AllValid(rs, RelayKey, RelaySubOk)
  }

  /** What a validator accepts, the parser can read back. */
  lemma ValidIsWellTyped(p: Patch)
    requires Valid(p)
    ensures WellTyped(p)
  {
  }

  /** The loop every list validator runs: the index it reports is that of the first
      entry that is bad by itself or repeats an earlier key. */
  method ValidateEntries<T>(xs: seq<T>, key: T -> string, ok: T -> bool) returns (bad: Option<nat>)
    ensures bad.None? <==> AllValid(xs, key, ok)
    ensures bad.Some? ==> bad.value < |xs| && AllValid(xs[..bad.value], key, ok)
    ensures bad.Some? ==> !ok(xs[bad.value]) || key(xs[bad.value]) in Map(xs[..bad.value], key)
  {
    var seen: set<string> := {};
    for i := 0 to |xs|
      invariant AllValid(xs[..i], key, ok)
      invariant forall k :: k in seen <==> k in Map(xs[..i], key)
    {
      assert xs[..i + 1] == xs[..i] + [xs[i]];
      assert Map(xs[..i + 1], key) == Map(xs[..i], key) + [key(xs[i])];
      DistinctAppend(Map(xs[..i], key), key(xs[i]));
      if !ok(xs[i]) || key(xs[i]) in seen {
        return Some(i);
      }
      seen := seen + {key(xs[i])};
    }
    assert xs[..|xs|] == xs;
    return None;
  }

  predicate Blank(s: string) { forall i :: 0 <= i < |s| ==> IsSpace(s[i]) }

  lemma TrimIffBlank(s: string)
    ensures Trim(s) == "" <==> Blank(s)
  {
    var a, b := TrimIs(s);
  }

  predicate Within(n: Option<u32>, low: nat, high: nat) { n.Some? ==> low <= n.value <= high }

  /** An output that the encoders can be asked for. */
  predicate Encodable(t: TranscodeSub) {
    t.format in {"mp3", "vorbis"} && 1 <= t.sampleRate <= 192_000 && 1 <= t.bitrateKbps <= 512
  }

  predicate MayEncodable(t: Option<TranscodeSub>) { t.Some? ==> Encodable(t.value) }

  /** What every mount entry must have, whichever section it is in: a path that starts
      with a slash, room for a listener, and a burst of 16 MiB at most. */
  predicate Mountable(path: string, maxListeners: Option<u32>, burst: Option<u32>) {
    "/" <= path && Within(maxListeners, 1, 0xFFFF_FFFF) && Within(burst, 0, 16_777_216)
  }

  lemma PathOkIff(p: string)
    ensures PathOk(p) <==> "/" <= p
  {
    TrimIffBlank(p);
    if PathOk(p) { assert "/" <= p; }
  }

  /** What the entry validators accept, in terms of characters and numbers. */
  lemma MountOkIff(m: MountSub)
    ensures MountOk(m) <==>
      && Mountable(m.path, m.maxListeners, m.burstSize) && !Blank(m.sourcePassword) && MayEncodable(m.transcode)
  {
    hide Trim, PathOk, Blank;
    PathOkIff(m.path);
    TrimIffBlank(m.sourcePassword);
  }

  lemma AutoDjOkIff(a: AutoDjSub)
    ensures AutoDjOk(a) <==>
      && Mountable(a.mount, a.maxListeners, a.burstSize) && !Blank(a.folder) && Encodable(a.transcode)
      && a.order in {"shuffle", "sequential"}
  {
    hide Trim, PathOk, Blank;
    PathOkIff(a.mount);
    TrimIffBlank(a.folder);
  }

  lemma RelayOkForIff(r: RelaySub)
    ensures RelaySubOk(r) <==>
      && Mountable(r.mount, r.maxListeners, r.burstSize) && MayEncodable(r.transcode)
      && ("http://" <= r.upstream || "https://" <= r.upstream)
      && (r.username.Some? == r.password.Some? || r.username == Some("") || r.password == Some(""))
  {
    hide PathOk;
    PathOkIff(r.mount);
    if r.username.Some? && r.password.Some? { assert LoginOk(r.username, r.password); }
  }

  lemma UserOkIff(u: UserSub)
    ensures UserOk(u) <==> !Blank(u.username) && u.passwordBcrypt != "" && u.role in {"admin", "operator"}
  {
    TrimIffBlank(u.username);
  }

  lemma ServerOkIff(s: ServerSub)
    ensures ServerOk(s) <==>
      && s.ringSize >= 1 && s.maxListenersGlobal >= 1 && s.burstSize <= 16_777_216
      && s.format in {"pretty", "json"} && !Blank(s.server.hostname) && !Blank(s.level)
  {
    TrimIffBlank(s.server.hostname);
    TrimIffBlank(s.level);
  }

  // ── Redaction ─────────────────────────────────────────────────────────────

  function RedactUser(u: UserConfig): UserConfig { u.(passwordBcrypt := REDACTED) }
  function RedactMount(m: MountConfig): MountConfig { m.(sourcePassword := REDACTED) }
  function RedactRelay(r: RelayConfig): RelayConfig { if r.password.Some? then r.(password := Some(REDACTED)) else r }

  /** No secret of the configuration is in what a client reads. */
  function Redacted(c: Config): Config {
    c.(auth := AuthConfig(
         Map(c.auth.users, RedactUser), if c.auth.sourcePassword.Some? then Some(REDACTED) else None),
       mounts := Map(c.mounts, RedactMount), relays := Map(c.relays, RedactRelay))
  }

  method Redact(c: Config) returns (out: Config)
    ensures out == Redacted(c)
  {
    out := c;
    var users := c.auth.users;
    for i := 0 to |users|
      invariant |users| == |c.auth.users|
      invariant forall j :: 0 <= j < |users| ==>
        users[j] == (if j < i then RedactUser(c.auth.users[j]) else c.auth.users[j])
    {
      users := users[i := RedactUser(users[i])];
    }
    assert users == Map(c.auth.users, RedactUser);
    out := out.(auth := out.auth.(users := users));
    if out.auth.sourcePassword.Some? {
      out := out.(auth := out.auth.(sourcePassword := Some(REDACTED)));
    }
    var mounts := c.mounts;
    for i := 0 to |mounts|
      invariant |mounts| == |c.mounts|
      invariant forall j :: 0 <= j < |mounts| ==> mounts[j] == if j < i then RedactMount(c.mounts[j]) else c.mounts[j]
    {
      mounts := mounts[i := RedactMount(mounts[i])];
    }
    assert mounts == Map(c.mounts, RedactMount);
    var relays := c.relays;
    for i := 0 to |relays|
      invariant |relays| == |c.relays|
      invariant forall j :: 0 <= j < |relays| ==> relays[j] == if j < i then RedactRelay(c.relays[j]) else c.relays[j]
    {
      relays := relays[i := RedactRelay(relays[i])];
    }
    assert relays == Map(c.relays, RedactRelay);
    out := out.(mounts := mounts, relays := relays);
  }

  /** What a client reads does not depend on any secret, only on whether it is set. */
  lemma RedactedHidesSecrets(c: Config, i: nat, secret: string)
    ensures i < |c.mounts| ==>
      Redacted(c.(mounts := c.mounts[i := c.mounts[i].(sourcePassword := secret)])) == Redacted(c)
    ensures i < |c.auth.users| ==>
      var users := c.auth.users[i := c.auth.users[i].(passwordBcrypt := secret)];
      Redacted(c.(auth := c.auth.(users := users))) == Redacted(c)
    ensures i < |c.relays| && c.relays[i].password.Some? ==>
      Redacted(c.(relays := c.relays[i := c.relays[i].(password := Some(secret))])) == Redacted(c)
    ensures c.auth.sourcePassword.Some? ==>
      Redacted(c.(auth := c.auth.(sourcePassword := Some(secret)))) == Redacted(c)
  {
    if i < |c.mounts| {
      assert Map(c.mounts[i := c.mounts[i].(sourcePassword := secret)], RedactMount) == Map(c.mounts, RedactMount);
    }
    if i < |c.auth.users| {
      var users := c.auth.users[i := c.auth.users[i].(passwordBcrypt := secret)];
      assert Map(users, RedactUser) == Map(c.auth.users, RedactUser);
    }
    if i < |c.relays| && c.relays[i].password.Some? {
      var relays := c.relays[i := c.relays[i].(password := Some(secret))];
      assert Map(relays, RedactRelay) == Map(c.relays, RedactRelay);
    }
  }

  // ── Request bodies ────────────────────────────────────────────────────────

  /** A body entry is a patch entry whose secret may be absent. */
  datatype MountBody = MountBody(entry: MountSub, password: Option<string>)
  datatype UserBody = UserBody(username: string, password: Option<string>, role: string)

  /** A value the client really supplied: not absent, blank or the redaction mark. */
  predicate Supplied(p: Option<string>) { p.Some? && p.value != "" && p.value != REDACTED }

  /** The map collected from a list: the last entry for a key that has a secret wins. */
  function Collected<T>(xs: seq<T>, key: T -> string, secret: T -> Option<string>): map<string, string> {
    if xs == [] then map[]
    else
      var before, x := Collected(xs[..|xs| - 1], key, secret), xs[|xs| - 1];
      if secret(x).Some? then before[key(x) := secret(x).value] else before
  }

  function Get<K, V>(m: map<K, V>, k: K): Option<V> { if k in m then Some(m[k]) else None }

  /** Entry `i` is the last for its key that has a secret, and `s` is that secret. */
  ghost predicate LastFor<T>(
    xs: seq<T>, key: T -> string, secret: T -> Option<string>, k: string, s: string, i: nat)
  {
    && i < |xs| && key(xs[i]) == k && secret(xs[i]) == Some(s)
    && forall j :: i < j < |xs| && key(xs[j]) == k ==> secret(xs[j]).None?
  }

  ghost predicate InPlace<T>(xs: seq<T>, key: T -> string, secret: T -> Option<string>, k: string, s: string) {
    exists i: nat :: LastFor(xs, key, secret, k, s, i)
  }

  lemma {:induction false} CollectedIff<T>(
    xs: seq<T>, key: T -> string, secret: T -> Option<string>, k: string, s: string)
    ensures Get(Collected(xs, key, secret), k) == Some(s) <==> InPlace(xs, key, secret, k, s)
  {
    if xs != [] {
      var n := |xs| - 1;
      CollectedIff(xs[..n], key, secret, k, s);
      if key(xs[n]) == k && secret(xs[n]).Some? {
        assert secret(xs[n]) == Some(s) ==> LastFor(xs, key, secret, k, s, n);
      } else {
        assert forall i: nat :: LastFor(xs[..n], key, secret, k, s, i) <==> LastFor(xs, key, secret, k, s, i);
      }
    }
  }

  /** With a key of its own, an entry's secret is found under it. */
  lemma CollectedAt<T>(xs: seq<T>, key: T -> string, secret: T -> Option<string>, i: nat)
    requires i < |xs| && forall j, k :: 0 <= j < k < |xs| ==> key(xs[j]) != key(xs[k])
    ensures Get(Collected(xs, key, secret), key(xs[i])) == secret(xs[i])
  {
    var found := Get(Collected(xs, key, secret), key(xs[i]));
    if found.Some? { CollectedIff(xs, key, secret, key(xs[i]), found.value); }
    if secret(xs[i]).Some? {
      assert LastFor(xs, key, secret, key(xs[i]), secret(xs[i]).value, i);
      CollectedIff(xs, key, secret, key(xs[i]), secret(xs[i]).value);
    }
  }

  function PathOf(m: MountConfig): string { m.path }
  function PasswordOf(m: MountConfig): Option<string> { Some(m.sourcePassword) }
  function RelayPathOf(r: RelayConfig): string { r.mount }
  function RelayPasswordOf(r: RelayConfig): Option<string> { r.password }
  function NameOf(u: UserConfig): string { u.username }
  function HashOf(u: UserConfig): Option<string> { Some(u.passwordBcrypt) }

  function PasswordsOf(ms: seq<MountConfig>): map<string, string> { Collected(ms, PathOf, PasswordOf) }
  function RelayPasswordsOf(rs: seq<RelayConfig>): map<string, string> { Collected(rs, RelayPathOf, RelayPasswordOf) }
  function HashesOf(us: seq<UserConfig>): map<string, string> { Collected(us, NameOf, HashOf) }

  /** The password of a mount: the one supplied, else the one in place for its path,
      else the global one; without any of them the request is refused. */
  function MountPassword(m: MountBody, existing: map<string, string>, global: Option<string>): Option<string> {
    if Supplied(m.password) then m.password
    else if m.entry.path in existing then Some(existing[m.entry.path]) else global
  }

  function ResolveMounts(ms: seq<MountBody>, existing: map<string, string>, global: Option<string>):
    Option<seq<MountSub>>
  {
    if ms == [] then Some([])
    else
      var before :- ResolveMounts(ms[..|ms| - 1], existing, global);
      var p :- MountPassword(ms[|ms| - 1], existing, global);
      Some(before + [ms[|ms| - 1].entry.(sourcePassword := p)])
  }

  /** A relay may stay without a password. */
  function ResolveRelay(r: RelaySub, existing: map<string, string>): RelaySub {
    r.(password := if Supplied(r.password) then r.password
                   else if r.mount in existing then Some(existing[r.mount]) else None)
  }

  /** The hash of user `i` of the body, `hashed` being what hashing its new password gives. */
  function UserHash(u: UserBody, hashed: string, existing: map<string, string>): Option<string> {
    if Supplied(u.password) then Some(hashed)
    else if Trim(u.username) in existing then Some(existing[Trim(u.username)]) else None
  }

  function ResolveUsers(us: seq<UserBody>, hashed: nat -> string, existing: map<string, string>):
    Option<seq<UserSub>>
  {
    if us == [] then Some([])
    else
      var before :- ResolveUsers(us[..|us| - 1], hashed, existing);
      var u := us[|us| - 1];
      var hash :- if Trim(u.username) == "" then None else UserHash(u, hashed(|us| - 1), existing);
      Some(before + [UserSub(Trim(u.username), hash, u.role)])
  }

  /** Someone signed in must stay in the list as an administrator. */
  predicate KeepsRequester(us: seq<UserBody>, requester: string) {
    requester == "" || exists u :: u in us && Trim(u.username) == requester && u.role == "admin"
  }

  // ── Writing back what was read ────────────────────────────────────────────

  /** The entries a client that read the configuration sends back unchanged. */
  function MountBodyOf(m: MountConfig): MountBody { MountBody(MountSubOf(m), Some(m.sourcePassword)) }
  function UserBodyOf(u: UserConfig): UserBody {
    UserBody(u.username, Some(u.passwordBcrypt), UserSubOf(u).role)
  }

  // ── Which secret an entry gets ────────────────────────────────────────────

  /** The body sends `s` as a new secret. */
  predicate Sends(password: Option<string>, s: string) { password == Some(s) && s != "" && s != "***" }

  predicate SendsNone(password: Option<string>) {
    password == None || password == Some("") || password == Some("***")
  }

  /** A mount gets the password sent, else that of the last mount in place at its path,
      else the global one. */
  ghost predicate MountGets(c: Config, m: MountBody, s: string) {
    || Sends(m.password, s)
    || (SendsNone(m.password) && InPlace(c.mounts, PathOf, PasswordOf, m.entry.path, s))
    || (SendsNone(m.password) && c.auth.sourcePassword == Some(s)
        && forall o :: o in c.mounts ==> o.path != m.entry.path)
  }

  /** A relay gets the password sent, else that of the last relay in place at its mount
      that has one, else none. */
  ghost predicate RelayGets(c: Config, r: RelaySub, p: Option<string>) {
    if p.Some? then
      || Sends(r.password, p.value)
      || (SendsNone(r.password) && InPlace(c.relays, RelayPathOf, RelayPasswordOf, r.mount, p.value))
    else
      SendsNone(r.password) && forall o :: o in c.relays && o.mount == r.mount ==> o.password.None?
  }

  /** A user gets the hash of the password sent, else that of the last user in place under
      the trimmed name. */
  ghost predicate UserGets(c: Config, u: UserBody, hashed: string, s: string) {
    || (s == hashed && exists p :: Sends(u.password, p))
    || (SendsNone(u.password) && InPlace(c.auth.users, NameOf, HashOf, Trim(u.username), s))
  }

  lemma NotCollected<T>(xs: seq<T>, key: T -> string, secret: T -> Option<string>, k: string)
    ensures k !in Collected(xs, key, secret) <==> forall x :: x in xs && key(x) == k ==> secret(x).None?
  {
    if k in Collected(xs, key, secret) {
      CollectedIff(xs, key, secret, k, Collected(xs, key, secret)[k]);
    } else {
      NoneHasOne(xs, key, secret, k);
    }
  }

  lemma {:induction false} NoneHasOne<T>(xs: seq<T>, key: T -> string, secret: T -> Option<string>, k: string)
    requires k !in Collected(xs, key, secret)
    ensures forall x :: x in xs && key(x) == k ==> secret(x).None?
  {
    if xs != [] {
      NoneHasOne(xs[..|xs| - 1], key, secret, k);
      assert xs == xs[..|xs| - 1] + [xs[|xs| - 1]];
    }
  }

  lemma MountGetsIff(c: Config, m: MountBody, s: string)
    ensures MountPassword(m, PasswordsOf(c.mounts), c.auth.sourcePassword) == Some(s) <==> MountGets(c, m, s)
  {
    CollectedIff(c.mounts, PathOf, PasswordOf, m.entry.path, s);
    NotCollected(c.mounts, PathOf, PasswordOf, m.entry.path);
  }

  lemma RelayGetsIff(c: Config, r: RelaySub, p: Option<string>)
    ensures ResolveRelay(r, RelayPasswordsOf(c.relays)) == r.(password := p) <==> RelayGets(c, r, p)
  {
    if p.Some? { CollectedIff(c.relays, RelayPathOf, RelayPasswordOf, r.mount, p.value); }
    NotCollected(c.relays, RelayPathOf, RelayPasswordOf, r.mount);
  }

  lemma UserGetsIff(c: Config, u: UserBody, hashed: string, s: string)
    ensures UserHash(u, hashed, HashesOf(c.auth.users)) == Some(s) <==> UserGets(c, u, hashed, s)
  {
    CollectedIff(c.auth.users, NameOf, HashOf, Trim(u.username), s);
    if u.password.Some? && Supplied(u.password) { assert Sends(u.password, u.password.value); }
  }

  /** `m` is what the entry `b` of the body becomes. */
  ghost predicate MountMade(c: Config, b: MountBody, m: MountSub) {
    m == b.entry.(sourcePassword := m.sourcePassword) && MountGets(c, b, m.sourcePassword)
  }

  ghost predicate UserMade(c: Config, b: UserBody, hashed: string, u: UserSub) {
    && u.username == Trim(b.username) != "" && u.role == b.role
    && UserGets(c, b, hashed, u.passwordBcrypt)
  }

  /** The mounts made of a body, one for each entry and in its order. */
  ghost predicate MountsMade(c: Config, body: seq<MountBody>, ms: seq<MountSub>) {
    |ms| == |body| && forall i :: 0 <= i < |body| ==> MountMade(c, body[i], ms[i])
  }

  ghost predicate RelaysMade(c: Config, body: seq<RelaySub>, rs: seq<RelaySub>) {
    |rs| == |body| && forall i :: 0 <= i < |body| ==>
      rs[i] == body[i].(password := rs[i].password) && RelayGets(c, body[i], rs[i].password)
  }

  ghost predicate UsersMade(c: Config, body: seq<UserBody>, hashed: nat -> string, us: seq<UserSub>) {
    |us| == |body| && forall i :: 0 <= i < |body| ==> UserMade(c, body[i], hashed(i), us[i])
  }

  lemma MountsMadeLast(c: Config, body: seq<MountBody>, ms: seq<MountSub>)
    requires body != [] && |ms| == |body|
    ensures var n := |body| - 1;
      MountsMade(c, body, ms) <==> MountsMade(c, body[..n], ms[..n]) && MountMade(c, body[n], ms[n])
  {
    var n := |body| - 1;
    if MountsMade(c, body[..n], ms[..n]) {
      forall i | 0 <= i < n ensures MountMade(c, body[i], ms[i]) { assert MountMade(c, body[..n][i], ms[..n][i]); }
    }
  }

  lemma {:induction false} MountsMadeIff(c: Config, body: seq<MountBody>, ms: seq<MountSub>)
    ensures ResolveMounts(body, PasswordsOf(c.mounts), c.auth.sourcePassword) == Some(ms) <==> MountsMade(c, body, ms)
  {
    ResolvedLength(body, PasswordsOf(c.mounts), c.auth.sourcePassword);
    if body != [] && |ms| == |body| {
      hide MountGets, MountPassword, PasswordsOf, MountsMade;
      var n := |body| - 1;
      MountsMadeIff(c, body[..n], ms[..n]);
      MountGetsIff(c, body[n], ms[n].sourcePassword);
      MountsMadeLast(c, body, ms);
      assert ms == ms[..n] + [ms[n]];
    }
  }

  lemma {:induction false} ResolvedLength(ms: seq<MountBody>, existing: map<string, string>, global: Option<string>)
    ensures var r := ResolveMounts(ms, existing, global); r.Some? ==> |r.value| == |ms|
  {
    if ms != [] { ResolvedLength(ms[..|ms| - 1], existing, global); }
  }

  lemma UsersMadeLast(c: Config, body: seq<UserBody>, hashed: nat -> string, us: seq<UserSub>)
    requires body != [] && |us| == |body|
    ensures var n := |body| - 1;
      UsersMade(c, body, hashed, us) <==>
      UsersMade(c, body[..n], hashed, us[..n]) && UserMade(c, body[n], hashed(n), us[n])
  {
    hide UserMade;
    var n := |body| - 1;
    if UsersMade(c, body[..n], hashed, us[..n]) {
      forall i | 0 <= i < n ensures UserMade(c, body[i], hashed(i), us[i]) {
        assert UserMade(c, body[..n][i], hashed(i), us[..n][i]);
      }
    }
  }

  lemma {:induction false} UsersMadeIff(c: Config, body: seq<UserBody>, hashed: nat -> string, us: seq<UserSub>)
    ensures ResolveUsers(body, hashed, HashesOf(c.auth.users)) == Some(us) <==> UsersMade(c, body, hashed, us)
  {
    hide UserGets, UserHash, HashesOf, Trim;
    NamesAreTrimmed(body, hashed, HashesOf(c.auth.users));
    if body != [] && |us| == |body| {
      hide UsersMade;
      var n := |body| - 1;
      UsersMadeIff(c, body[..n], hashed, us[..n]);
      UserGetsIff(c, body[n], hashed(n), us[n].passwordBcrypt);
      UsersMadeLast(c, body, hashed, us);
      assert us == us[..n] + [us[n]];
    }
  }

  lemma RelaysMadeIff(c: Config, body: seq<RelaySub>, rs: seq<RelaySub>)
    ensures var existing := RelayPasswordsOf(c.relays);
      rs == Map(body, (b: RelaySub) => ResolveRelay(b, existing)) <==> RelaysMade(c, body, rs)
  {
    hide RelayGets, ResolveRelay, RelayPasswordsOf;
    var existing := RelayPasswordsOf(c.relays);
    if |rs| == |body| {
      forall i | 0 <= i < |rs|
        ensures rs[i] == ResolveRelay(body[i], existing) <==>
          rs[i] == body[i].(password := rs[i].password) && RelayGets(c, body[i], rs[i].password)
      {
        RelayGetsIff(c, body[i], rs[i].password);
        OnlyPassword(body[i], existing);
      }
    }
  }

  lemma OnlyPassword(r: RelaySub, existing: map<string, string>)
    ensures ResolveRelay(r, existing) == r.(password := ResolveRelay(r, existing).password)
  {
  }

  /** What a handler answers with the patch it then saves, when it accepts. */
  ghost predicate Accepts(c: Config, p: Patch) {
    Valid(p) && (p.UsersPatch? || ValidConfig(Overlay(c, p)))
  }

  method CollectPasswords(ms: seq<MountConfig>) returns (existing: map<string, string>)
    ensures existing == PasswordsOf(ms)
  {
    existing := map[];
    for i := 0 to |ms|
      invariant existing == PasswordsOf(ms[..i])
    {
      assert ms[..i + 1][..i] == ms[..i];
      existing := existing[ms[i].path := ms[i].sourcePassword];
    }
    assert ms[..|ms|] == ms;
  }

  lemma {:induction false} ResolveMountsPrefix(
    ms: seq<MountBody>, n: nat, existing: map<string, string>, global: Option<string>)
    requires n <= |ms| && ResolveMounts(ms[..n], existing, global).None?
    ensures ResolveMounts(ms, existing, global).None?
  {
    if n < |ms| {
      assert ms[..|ms| - 1][..n] == ms[..n];
      ResolveMountsPrefix(ms[..|ms| - 1], n, existing, global);
    } else {
      assert ms[..n] == ms;
    }
  }

  /** `put_mounts` up to the save. */
  method PutMounts(c: Config, body: seq<MountBody>) returns (r: Option<Patch>)
    ensures var ms := ResolveMounts(body, PasswordsOf(c.mounts), c.auth.sourcePassword);
      && (r.Some? <==> ms.Some? && Accepts(c, MountsPatch(ms.value)))
      && (r.Some? ==> r.value == MountsPatch(ms.value))
    ensures r.Some? ==> r.value.MountsPatch? && MountsMade(c, body, r.value.mounts) && Accepts(c, r.value)
    ensures r.None? ==> forall ms :: MountsMade(c, body, ms) ==> !Accepts(c, MountsPatch(ms))
  {
    forall ms { MountsMadeIff(c, body, ms); }
    hide MountsMade;
    var existing := CollectPasswords(c.mounts);
    var global := c.auth.sourcePassword;
    var resolved: seq<MountSub> := [];
    for i := 0 to |body|
      invariant ResolveMounts(body[..i], existing, global) == Some(resolved)
    {
      assert body[..i + 1][..i] == body[..i];
      var m := body[i];
      var password;
      if Supplied(m.password) {
        password := m.password.value;
      } else if m.entry.path in existing {
        password := existing[m.entry.path];
      } else if global.Some? {
        password := global.value;
      } else {
        ResolveMountsPrefix(body, i + 1, existing, global);
        return None;
      }
      resolved := resolved + [m.entry.(sourcePassword := password)];
    }
    assert body[..|body|] == body;
    var bad := ValidateEntries(resolved, MountKey, MountOk);
    if bad.Some? { return None; }
    var paths := ValidatePaths(Overlay(c, MountsPatch(resolved)));
    return if paths then Some(MountsPatch(resolved)) else None;
  }

  method PutRelays(c: Config, body: seq<RelaySub>) returns (r: Option<Patch>)
    ensures var existing := RelayPasswordsOf(c.relays);
      var rs := Map(body, (b: RelaySub) => ResolveRelay(b, existing));
      && (r.Some? <==> Accepts(c, RelaysPatch(rs)))
      && (r.Some? ==> r.value == RelaysPatch(rs))
    ensures r.Some? ==> r.value.RelaysPatch? && RelaysMade(c, body, r.value.relays) && Accepts(c, r.value)
    ensures r.None? ==> forall rs :: RelaysMade(c, body, rs) ==> !Accepts(c, RelaysPatch(rs))
  {
    forall rs { RelaysMadeIff(c, body, rs); }
    hide RelaysMade;
    ghost var spec := RelayPasswordsOf(c.relays);
    var existing: map<string, string> := map[];
    for i := 0 to |c.relays|
      invariant existing == RelayPasswordsOf(c.relays[..i])
    {
      assert c.relays[..i + 1][..i] == c.relays[..i];
      if c.relays[i].password.Some? {
        existing := existing[c.relays[i].mount := c.relays[i].password.value];
      }
    }
    assert c.relays[..|c.relays|] == c.relays;
    var resolved: seq<RelaySub> := [];
    for i := 0 to |body|
      invariant |resolved| == i && forall j :: 0 <= j < i ==> resolved[j] == ResolveRelay(body[j], existing)
    {
      var b := body[i];
      var password: Option<string> := None;
      if Supplied(b.password) {
        password := b.password;
      } else if b.mount in existing {
        password := Some(existing[b.mount]);
      }
      resolved := resolved + [b.(password := password)];
    }
    assert resolved == Map(body, (b: RelaySub) => ResolveRelay(b, spec));
    var bad := ValidateEntries(resolved, RelayKey, RelaySubOk);
    if bad.Some? { return None; }
    var paths := ValidatePaths(Overlay(c, RelaysPatch(resolved)));
    return if paths then Some(RelaysPatch(resolved)) else None;
  }

  lemma {:induction false} ResolveUsersPrefix(
    us: seq<UserBody>, n: nat, hashed: nat -> string, existing: map<string, string>)
    requires n <= |us| && ResolveUsers(us[..n], hashed, existing).None?
    ensures ResolveUsers(us, hashed, existing).None?
  {
    if n < |us| {
      assert us[..|us| - 1][..n] == us[..n];
      ResolveUsersPrefix(us[..|us| - 1], n, hashed, existing);
    } else {
      assert us[..n] == us;
    }
  }

  method CollectHashes(us: seq<UserConfig>) returns (existing: map<string, string>)
    ensures existing == HashesOf(us)
  {
    existing := map[];
    for i := 0 to |us|
      invariant existing == HashesOf(us[..i])
    {
      assert us[..i + 1][..i] == us[..i];
      existing := existing[us[i].username := us[i].passwordBcrypt];
    }
    assert us[..|us|] == us;
  }

  /** `put_users` up to the save; `hashed(i)` is what hashing entry `i`'s new password
      gives. */
  method PutUsers(c: Config, body: seq<UserBody>, requester: string, hashed: nat -> string) returns (r: Option<Patch>)
    ensures var us := ResolveUsers(body, hashed, HashesOf(c.auth.users));
      && (r.Some? <==> KeepsRequester(body, requester) && us.Some? && Accepts(c, UsersPatch(us.value)))
      && (r.Some? ==> r.value == UsersPatch(us.value))
    ensures r.Some? ==> r.value.UsersPatch? && UsersMade(c, body, hashed, r.value.users) && Accepts(c, r.value)
    ensures r.None? && KeepsRequester(body, requester) ==>
      forall us :: UsersMade(c, body, hashed, us) ==> !Accepts(c, UsersPatch(us))
  {
    hide UsersMade, Trim, UserOk, HashesOf, UserHash, KeepsRequester;
    forall us { UsersMadeIff(c, body, hashed, us); }
    if !KeepsRequester(body, requester) { return None; }
    var existing := CollectHashes(c.auth.users);
    var resolved: seq<UserSub> := [];
    for i := 0 to |body|
      invariant ResolveUsers(body[..i], hashed, existing) == Some(resolved)
    {
      assert body[..i + 1][..i] == body[..i];
      var username := Trim(body[i].username);
      var hash := if username == "" then None else UserHash(body[i], hashed(i), existing);
      if hash.None? {
        ResolveUsersPrefix(body, i + 1, hashed, existing);
        return None;
      }
      resolved := resolved + [UserSub(username, hash.value, body[i].role)];
    }
    assert body[..|body|] == body;
    var bad := ValidateEntries(resolved, UserKey, UserOk);
    return if bad.None? && HasAdmin(resolved) then Some(UsersPatch(resolved)) else None;
  }

  lemma MapIdentity<A, B>(s: seq<A>, f: A -> B, g: B -> A)
    requires forall x :: x in s ==> g(f(x)) == x
    ensures Map(Map(s, f), g) == s
  {
  }

  lemma {:induction false} MountsResolve(ms: seq<MountConfig>, existing: map<string, string>, global: Option<string>)
    requires forall m :: m in ms ==> m.path in existing && existing[m.path] == m.sourcePassword
    ensures ResolveMounts(Map(Map(ms, RedactMount), MountBodyOf), existing, global) == Some(Map(ms, MountSubOf))
  {
    if ms != [] {
      var n := |ms| - 1;
      var body := Map(Map(ms, RedactMount), MountBodyOf);
      assert body[..n] == Map(Map(ms[..n], RedactMount), MountBodyOf);
      MountsResolve(ms[..n], existing, global);
      assert body[n] == MountBodyOf(RedactMount(ms[n]));
      assert !Supplied(body[n].password);
      assert Map(ms, MountSubOf) == Map(ms[..n], MountSubOf) + [MountSubOf(ms[n])];
    }
  }

  /** Reading the configuration and writing the mounts back unchanged is accepted and
      changes nothing, although no password was sent. */
  lemma MountsWriteBack(c: Config)
    requires ValidConfig(c) && AllValid(Map(c.mounts, MountSubOf), MountKey, MountOk)
    ensures var ms := ResolveMounts(
        Map(Redacted(c).mounts, MountBodyOf), PasswordsOf(c.mounts), c.auth.sourcePassword);
      ms.Some? && Accepts(c, MountsPatch(ms.value)) && Overlay(c, MountsPatch(ms.value)) == c
  {
    DistinctPrefix(MountPaths(c), AutoDjPaths(c) + RelayPaths(c));
    assert MountPaths(c) + AutoDjPaths(c) + RelayPaths(c) == MountPaths(c) + (AutoDjPaths(c) + RelayPaths(c));
    forall j, k | 0 <= j < k < |c.mounts| ensures c.mounts[j].path != c.mounts[k].path {
      assert MountPaths(c)[j] != MountPaths(c)[k];
    }
    forall m | m in c.mounts
      ensures m.path in PasswordsOf(c.mounts) && PasswordsOf(c.mounts)[m.path] == m.sourcePassword
    {
      var i :| 0 <= i < |c.mounts| && c.mounts[i] == m;
      CollectedAt(c.mounts, PathOf, PasswordOf, i);
    }
    MountsResolve(c.mounts, PasswordsOf(c.mounts), c.auth.sourcePassword);
    MapIdentity(c.mounts, MountSubOf, MountOf);
  }

  lemma RelaysWriteBack(c: Config)
    requires ValidConfig(c) && AllValid(Map(c.relays, RelaySubOf), RelayKey, RelaySubOk)
    ensures var existing := RelayPasswordsOf(c.relays);
      var rs := Map(Map(Redacted(c).relays, RelaySubOf), (b: RelaySub) => ResolveRelay(b, existing));
      Accepts(c, RelaysPatch(rs)) && Overlay(c, RelaysPatch(rs)) == c
  {
    var existing := RelayPasswordsOf(c.relays);
    var rs := Map(Map(Redacted(c).relays, RelaySubOf), (b: RelaySub) => ResolveRelay(b, existing));
    forall j, k | 0 <= j < k < |c.relays| ensures c.relays[j].mount != c.relays[k].mount {
      var all, n := MountPaths(c) + AutoDjPaths(c) + RelayPaths(c), |c.mounts| + |c.autodjs|;
      assert all[n + j] != all[n + k];
    }
    forall i | 0 <= i < |rs| ensures rs[i] == RelaySubOf(c.relays[i]) {
      CollectedAt(c.relays, RelayPathOf, RelayPasswordOf, i);
    }
    assert rs == Map(c.relays, RelaySubOf);
    MapIdentity(c.relays, RelaySubOf, RelayOf);
  }

  /** Whatever is sent, the users saved have trimmed names, in the order sent. */
  lemma {:induction false} NamesAreTrimmed(us: seq<UserBody>, hashed: nat -> string, existing: map<string, string>)
    ensures var r := ResolveUsers(us, hashed, existing);
      r.Some? ==> |r.value| == |us| && forall i :: 0 <= i < |us| ==> r.value[i].username == Trim(us[i].username)
  {
    if us != [] { NamesAreTrimmed(us[..|us| - 1], hashed, existing); }
  }

  /** The user is in place under the trimmed name, with a name that is not blank. */
  predicate Resolvable(u: UserConfig, existing: map<string, string>) {
    && u.username in existing && existing[u.username] == u.passwordBcrypt
    && Trim(u.username) == u.username && u.username != ""
  }

  lemma ResolveLast(us: seq<UserBody>, u: UserConfig, hashed: nat -> string, existing: map<string, string>)
    requires us != [] && us[|us| - 1] == UserBodyOf(RedactUser(u)) && Resolvable(u, existing)
    ensures var before := ResolveUsers(us[..|us| - 1], hashed, existing);
      ResolveUsers(us, hashed, existing) == if before.Some? then Some(before.value + [UserSubOf(u)]) else None
  {
    assert !Supplied(us[|us| - 1].password);
  }

  predicate IsBodyOf(b: UserBody, u: UserConfig, existing: map<string, string>) {
    b == UserBodyOf(RedactUser(u)) && Resolvable(u, existing)
  }

  lemma {:induction false} TrimmedUsersResolve(
    us: seq<UserConfig>, body: seq<UserBody>, hashed: nat -> string, existing: map<string, string>)
    requires |body| == |us| && forall i :: 0 <= i < |us| ==> IsBodyOf(body[i], us[i], existing)
    ensures ResolveUsers(body, hashed, existing) == Some(Map(us, UserSubOf))
  {
    if us != [] {
      var n := |us| - 1;
      TrimmedUsersResolve(us[..n], body[..n], hashed, existing);
      assert IsBodyOf(body[n], us[n], existing);
      ResolveLast(body, us[n], hashed, existing);
      MapSnoc(us, UserSubOf);
    }
  }

  lemma MapSnoc<A, B>(s: seq<A>, f: A -> B)
    requires s != []
    ensures Map(s, f) == Map(s[..|s| - 1], f) + [f(s[|s| - 1])]
  {
  }

  lemma UsersOverlay(c: Config)
    ensures Overlay(c, UsersPatch(Map(c.auth.users, UserSubOf))) == c
  {
    MapIdentity(c.auth.users, UserSubOf, UserOf);
  }

  /** The users in place are there under their own names. */
  lemma UsersAreThere(c: Config)
    requires Valid(UsersPatch(Map(c.auth.users, UserSubOf)))
    ensures forall u :: u in c.auth.users ==>
      && u.username in HashesOf(c.auth.users) && HashesOf(c.auth.users)[u.username] == u.passwordBcrypt
      && Trim(u.username) != ""
  {
    var subs := Map(c.auth.users, UserSubOf);
    forall j, k | 0 <= j < k < |c.auth.users| ensures c.auth.users[j].username != c.auth.users[k].username {
      assert Map(subs, UserKey)[j] != Map(subs, UserKey)[k];
    }
    forall u | u in c.auth.users
      ensures u.username in HashesOf(c.auth.users) && HashesOf(c.auth.users)[u.username] == u.passwordBcrypt
      ensures Trim(u.username) != ""
    {
      var i :| 0 <= i < |c.auth.users| && c.auth.users[i] == u;
      CollectedAt(c.auth.users, NameOf, HashOf, i);
      assert UserOk(subs[i]);
    }
  }

  lemma OverlayUsers(c: Config, us: seq<UserSub>)
    requires Overlay(c, UsersPatch(us)) == c
    ensures Map(us, UserOf) == c.auth.users
  {
  }

  /** If a list that was sent is the one in place, the names sent were trimmed. */
  lemma SavedNames(c: Config, body: seq<UserBody>, hashed: nat -> string, us: seq<UserSub>)
    requires body == Map(Redacted(c).auth.users, UserBodyOf)
    requires ResolveUsers(body, hashed, HashesOf(c.auth.users)) == Some(us)
    requires Overlay(c, UsersPatch(us)) == c
    ensures forall u :: u in c.auth.users ==> Trim(u.username) == u.username
  {
    hide Overlay, HashesOf, Trim, ResolveUsers;
    OverlayUsers(c, us);
    NamesAreTrimmed(body, hashed, HashesOf(c.auth.users));
    forall u | u in c.auth.users ensures Trim(u.username) == u.username {
      var i :| 0 <= i < |c.auth.users| && c.auth.users[i] == u;
      assert Map(us, UserOf)[i] == u && body[i].username == u.username;
    }
  }

  /** Writing the users back is accepted and changes nothing exactly when no user name
      has white space around it: the handler trims the names it is sent. */
  lemma UsersWriteBackIff(c: Config, hashed: nat -> string)
    requires Valid(UsersPatch(Map(c.auth.users, UserSubOf)))
    ensures var us := ResolveUsers(Map(Redacted(c).auth.users, UserBodyOf), hashed, HashesOf(c.auth.users));
      (us.Some? && Accepts(c, UsersPatch(us.value)) && Overlay(c, UsersPatch(us.value)) == c) <==>
      forall u :: u in c.auth.users ==> Trim(u.username) == u.username
  {
    hide Trim, HashesOf, Valid;
    UsersAreThere(c);
    var body := Map(Redacted(c).auth.users, UserBodyOf);
    var us := ResolveUsers(body, hashed, HashesOf(c.auth.users));
    if forall u :: u in c.auth.users ==> Trim(u.username) == u.username {
      TrimmedUsersResolve(c.auth.users, body, hashed, HashesOf(c.auth.users));
      UsersOverlay(c);
    } else if us.Some? && Overlay(c, UsersPatch(us.value)) == c {
      SavedNames(c, body, hashed, us.value);
    }
  }

  /** With a space behind the name the write-back is refused: nobody has the trimmed one. */
  lemma SpaceBehindNameIsRefused(hashed: nat -> string)
    ensures var c := SAMPLE.(auth := AuthConfig([UserConfig("dj ", "hash", Admin)], None));
      && Valid(UsersPatch(Map(c.auth.users, UserSubOf)))
      && ResolveUsers(Map(Redacted(c).auth.users, UserBodyOf), hashed, HashesOf(c.auth.users)).None?
  {
    var u := UserConfig("dj ", "hash", Admin);
    var c := SAMPLE.(auth := AuthConfig([u], None));
    var body := Map(Redacted(c).auth.users, UserBodyOf);
    assert TrimStart("dj ") == "dj " && "dj "[..2] == "dj" && TrimEnd("dj") == "dj" && Trim("dj ") == "dj";
    assert HashesOf([u]) == HashesOf([u][..0])["dj " := "hash"] && "dj" !in HashesOf([u][..0]);
    assert body[0] == UserBody("dj ", Some(REDACTED), "admin") && !Supplied(body[0].password);
    var subs := Map(c.auth.users, UserSubOf);
    assert subs == [UserSub("dj ", "hash", "admin")] && subs[0] in subs;
  }

  /** The requester's check passes exactly for someone who is an administrator. */
  lemma RequesterKeptIff(c: Config, requester: string)
    requires forall u :: u in c.auth.users ==> Trim(u.username) == u.username
    ensures KeepsRequester(Map(Redacted(c).auth.users, UserBodyOf), requester) <==>
      requester == "" || exists u :: u in c.auth.users && u.username == requester && u.role.Admin?
  {
    hide Trim;
    var body := Map(Redacted(c).auth.users, UserBodyOf);
    if u :| u in c.auth.users && u.username == requester && u.role.Admin? {
      var i :| 0 <= i < |c.auth.users| && c.auth.users[i] == u;
      assert body[i].username == requester && body[i] in body;
    }
    if KeepsRequester(body, requester) && requester != "" {
      var b :| b in body && Trim(b.username) == requester && b.role == "admin";
      var i :| 0 <= i < |body| && body[i] == b;
      assert c.auth.users[i].username == requester;
    }
  }

  // ── The sections without per-entry secrets ────────────────────────────────

  /** `put_server` up to the save: a password that is blank or the redaction mark
      leaves the one in place alone. */
  method PutServer(c: Config, body: ServerSub) returns (r: Option<Patch>)
    ensures var s := body.(sourcePassword := if Supplied(body.sourcePassword) then body.sourcePassword else None);
      && (r.Some? <==> Accepts(c, ServerPatch(s)))
      && (r.Some? ==> r.value == ServerPatch(s))
    ensures r.Some? ==>
      r.value == ServerPatch(if SendsNone(body.sourcePassword) then body.(sourcePassword := None) else body)
  {
    var s := if Supplied(body.sourcePassword) then body else body.(sourcePassword := None);
    if !ServerOk(s) { return None; }
    var paths := ValidatePaths(Overlay(c, ServerPatch(s)));
    return if paths then Some(ServerPatch(s)) else None;
  }

  method PutTranscode(c: Config, body: Option<TranscodeSub>) returns (r: Option<Patch>)
    ensures r == if Accepts(c, TranscodePatch(body)) then Some(TranscodePatch(body)) else None
  {
    if !MayTranscodeOk(body) { return None; }
    var paths := ValidatePaths(Overlay(c, TranscodePatch(body)));
    return if paths then Some(TranscodePatch(body)) else None;
  }

  method PutAutoDjs(c: Config, body: seq<AutoDjSub>) returns (r: Option<Patch>)
    ensures r == if Accepts(c, AutoDjsPatch(body)) then Some(AutoDjsPatch(body)) else None
  {
    var bad := ValidateEntries(body, AutoDjKey, AutoDjOk);
    if bad.Some? { return None; }
    var paths := ValidatePaths(Overlay(c, AutoDjsPatch(body)));
    return if paths then Some(AutoDjsPatch(body)) else None;
  }

  /** The server section of what a client reads, as it would send it back. */
  function ServerBodyOf(c: Config): ServerSub {
    ServerSub(
      c.server, c.logging.level, if c.logging.format.Pretty? then "pretty" else "json",
      c.limits.maxListenersGlobal, c.limits.ringSize, c.limits.slowListenerGraceS, c.limits.burstSize,
      c.limits.sourceMaxKbps, c.auth.sourcePassword)
  }

  /** Writing back the sections without per-entry secrets changes nothing either; in
      particular the global password survives a save that sends it redacted. */
  lemma OtherSectionsWriteBack(c: Config)
    ensures var body := ServerBodyOf(Redacted(c));
      !Supplied(body.sourcePassword) && Overlay(c, ServerPatch(body.(sourcePassword := None))) == c
    ensures Overlay(c, TranscodePatch(MayTranscodeSubOf(Redacted(c).transcode))) == c
    ensures Overlay(c, AutoDjsPatch(Map(Redacted(c).autodjs, AutoDjSubOf))) == c
  {
    MapIdentity(c.autodjs, AutoDjSubOf, AutoDjOf);
  }
}
