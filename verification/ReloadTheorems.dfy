/** What a reload does to the mount at one path, for every pair of configurations. */
module ReloadTheorems {
  import opened Wrappers
  import opened Config
  import opened ReloadSpec
  import opened Reload

  predicate InSection(c: Config, p: string) {
    InMounts(c, p) || Configured(c, Key(AutoDjs, p)) || Configured(c, Key(Relays, p))
  }

  predicate SameSection(c0: Config, c1: Config, p: string) {
    && (InMounts(c0, p) <==> InMounts(c1, p))
    && (Configured(c0, Key(AutoDjs, p)) <==> Configured(c1, Key(AutoDjs, p)))
    && (Configured(c0, Key(Relays, p)) <==> Configured(c1, Key(Relays, p)))
  }

  /** The path moves to a section whose pass runs before the pass that drops it from
      its old section. */
  predicate MovesAgainstOrder(c0: Config, c1: Config, p: string) {
    || (InMounts(c1, p) && (Configured(c0, Key(AutoDjs, p)) || Configured(c0, Key(Relays, p))))
    || (Configured(c1, Key(AutoDjs, p)) && Configured(c0, Key(Relays, p)))
  }

  /** A path the new configuration needs has a mount after the reload exactly when
      it did not move against the order of the passes. */
  lemma RegisteredIff(c0: Config, c1: Config, p: string, v: Option<MountView>)
    requires UniquePaths(c0) && UniquePaths(c1)
    requires (Required(c0, p) ==> v.Some?) && Required(c1, p)
    ensures Reloaded(c0, c1, p, v).Some? <==> !MovesAgainstOrder(c0, c1, p)
  {
    OneSection(c0, p);
    OneSection(c1, p);
  }

  /** A dropped path has no mount afterwards. */
  lemma DroppedPathIsGone(c0: Config, c1: Config, p: string, v: Option<MountView>)
    requires InSection(c0, p) && !InSection(c1, p)
    ensures Reloaded(c0, c1, p, v).None? && Dropped(c0, c1, p)
  {
  }

  /** A path in neither configuration, as a dynamic mount's, is left alone. */
  lemma OtherPathIsUntouched(c0: Config, c1: Config, p: string, v: Option<MountView>)
    requires !InSection(c0, p) && !InSection(c1, p)
    ensures Reloaded(c0, c1, p, v) == v && !Dropped(c0, c1, p)
  {
  }

  /** A path of both configurations keeps its mount exactly when it keeps its section. */
  lemma KeptIffSameSection(c0: Config, c1: Config, p: string)
    requires UniquePaths(c0) && UniquePaths(c1) && InSection(c0, p) && InSection(c1, p)
    ensures !Dropped(c0, c1, p) <==> SameSection(c0, c1, p)
  {
    OneSection(c0, p);
    OneSection(c1, p);
  }

  /** The bus of a mount that survives keeps the burst size it was created with. */
  lemma BurstIsKept(c0: Config, c1: Config, p: string, v: MountView)
    requires !Dropped(c0, c1, p)
    ensures Reloaded(c0, c1, p, Some(v)).Some?
    ensures Reloaded(c0, c1, p, Some(v)).value.burst == v.burst
    ensures Reloaded(c0, c1, p, Some(v)).value.codec == v.codec
  {
  }

  predicate Shows(v: MountView, t: Task) { v.meta == t.Meta() && v.maxListeners == t.MaxListeners() }

  /** A surviving mount of an AutoDJ or relay entry shows the entry's metadata after
      the reload exactly when nothing forced a restart of the task, or the metadata
      did not change. */
  lemma MetadataShownIff(c0: Config, c1: Config, k: Key, v: MountView)
    requires UniquePaths(c1) && !Dropped(c0, c1, k.path) && Configured(c1, k)
    ensures Reloaded(c0, c1, k.path, Some(v)).Some?
    ensures var t := Find(Tasks(c1, k.section), k.path).value;
      Shows(Reloaded(c0, c1, k.path, Some(v)).value, t) <==>
        !NeedsRespawn(Tasks(c0, k.section), t) || Shows(v, t)
  {
    OneSection(c1, k.path);
  }

  /** Reloading the configuration a second time shows the metadata of every entry. */
  lemma SecondReloadShowsMetadata(c: Config, k: Key, v: MountView)
    requires UniquePaths(c) && Configured(c, k)
    ensures Reloaded(c, c, k.path, Some(v)).Some?
    ensures Shows(Reloaded(c, c, k.path, Some(v)).value, Find(Tasks(c, k.section), k.path).value)
  {
    OneSection(c, k.path);
    var t := Find(Tasks(c, k.section), k.path).value;
    AllDistinct(c);
    NothingToRespawn(Tasks(c, k.section));
    MetadataShownIff(c, c, k, v);
  }

  // ── Runs of reloads ───────────────────────────────────────────────────────

  datatype Attempt = Attempt(config: Config, authOk: bool)

  function ConfigAfter(c0: Config, run: seq<Attempt>): Config {
    if run == [] then c0
    else if run[|run| - 1].authOk then run[|run| - 1].config
    else ConfigAfter(c0, run[..|run| - 1])
  }

  /** No reload of the run gives the path of an enabled relay to an enabled AutoDJ. */
  ghost predicate KeepsRelaysApart(c0: Config, run: seq<Attempt>) {
    run == [] || (
      && KeepsRelaysApart(c0, run[..|run| - 1])
      && !(run[|run| - 1].authOk && RelayBecomesAutoDj(ConfigAfter(c0, run[..|run| - 1]), run[|run| - 1].config)))
  }

  ghost predicate NoPathLost(c0: Config, c1: Config) {
    forall p :: Required(c1, p) ==> !MovesAgainstOrder(c0, c1, p)
  }

  /** Whether a mount is registered at `p` after a reload, `was` saying whether one was
      before. Each pass first drops the paths that left its section and then registers
      those it lists; the task passes only do so for entries they restart. */
  predicate Stays(c0: Config, c1: Config, p: string, was: bool) {
    var mount := InMounts(c1, p) || (was && !InMounts(c0, p));
    StaysIn(c0, c1, Key(Relays, p), StaysIn(c0, c1, Key(AutoDjs, p), mount))
  }

  predicate StaysIn(c0: Config, c1: Config, k: Key, was: bool) {
    || (was && !DroppedTask(c0, c1, k))
    || (Configured(c1, k) && NeedsRespawn(Tasks(c0, k.section), Find(Tasks(c1, k.section), k.path).value))
  }

  lemma StaysIff(c0: Config, c1: Config, p: string, v: Option<MountView>)
    ensures Reloaded(c0, c1, p, v).Some? <==> Stays(c0, c1, p, v.Some?)
  {
  }

  /** The paths that have a mount after a run of reloads. */
  ghost predicate RegisteredAfter(c: Config, run: seq<Attempt>, p: string) {
    if run == [] then InSection(c, p)
    else
      var was, last := RegisteredAfter(c, run[..|run| - 1], p), run[|run| - 1];
      if last.authOk then Stays(ConfigAfter(c, run[..|run| - 1]), last.config, p, was) else was
  }

  ghost predicate LosesNoPath(c0: Config, run: seq<Attempt>) {
    run == [] || (
      && LosesNoPath(c0, run[..|run| - 1])
      && (run[|run| - 1].authOk ==> NoPathLost(ConfigAfter(c0, run[..|run| - 1]), run[|run| - 1].config)))
  }

  lemma {:induction false} ConfigAfterIsValid(c: Config, run: seq<Attempt>)
    requires ValidConfig(c) && forall a :: a in run ==> ValidConfig(a.config)
    ensures ValidConfig(ConfigAfter(c, run))
  {
    if run != [] { ConfigAfterIsValid(c, run[..|run| - 1]); }
  }

  /** In particular every needed path has a mount when no reload moves one against the order. */
  lemma {:induction false} NoneLostIsServed(c: Config, run: seq<Attempt>, p: string)
    requires ValidConfig(c) && (forall a :: a in run ==> ValidConfig(a.config)) && LosesNoPath(c, run)
    ensures Required(ConfigAfter(c, run), p) ==> RegisteredAfter(c, run, p)
  {
    if run != [] && run[|run| - 1].authOk && Required(ConfigAfter(c, run), p) {
      var before, last := run[..|run| - 1], run[|run| - 1];
      NoneLostIsServed(c, before, p);
      ConfigAfterIsValid(c, before);
      var view := MountView(CodecMp3, "", None, Metadata(None, None, None, None), 0);
      var v := if RegisteredAfter(c, before, p) then Some(view) else None;
      RegisteredIff(ConfigAfter(c, before), last.config, p, v);
      StaysIff(ConfigAfter(c, before), last.config, p, v);
    } else if run != [] {
      NoneLostIsServed(c, run[..|run| - 1], p);
    }
  }

  lemma StillServed(c0: Config, c1: Config, before: map<string, MountView>, after: map<string, MountView>)
    requires UniquePaths(c0) && UniquePaths(c1)
    requires forall p :: Required(c0, p) ==> p in before
    requires forall p :: Lookup(after, p) == Reloaded(c0, c1, p, Lookup(before, p))
    ensures (forall p :: Required(c1, p) ==> p in after) <==> NoPathLost(c0, c1)
  {
    forall p | Required(c1, p) ensures p in after <==> !MovesAgainstOrder(c0, c1, p) {
      RegisteredIff(c0, c1, p, Lookup(before, p));
      assert Lookup(after, p) == Reloaded(c0, c1, p, Lookup(before, p));
    }
  }

  ghost function Views(s: Server): map<string, MountView>
    reads s, s.mounts.Values
  {
    map p | p in s.mounts :: s.mounts[p].view
  }

  /** One reload: afterwards every needed mount is registered exactly when none of
      them moved against the order of the passes. */
  method ReloadOnce(s: Server, a: Attempt)
    requires s.Inv() && ValidConfig(a.config)
    modifies s, s.tasks, s.mounts.Values
    ensures s.Inv() && s.config == ConfigAfter(old(s.config), [a])
    ensures forall p :: p in s.mounts ==> (p in old(s.mounts) && s.mounts[p] == old(s.mounts[p])) || fresh(s.mounts[p])
    ensures OneAtATime(s.tasks.log) <==>
      old(OneAtATime(s.tasks.log)) && !(a.authOk && RelayBecomesAutoDj(old(s.config), a.config))
    ensures old(s.Served()) ==> (s.Served() <==> (a.authOk ==> NoPathLost(old(s.config), a.config)))
    ensures forall p :: p in s.mounts <==>
      if a.authOk then Stays(old(s.config), a.config, p, p in old(s.mounts)) else p in old(s.mounts)
  {
    var r := s.Apply(a.config, a.authOk);
    if a.authOk {
      forall p ensures p in s.mounts <==> Stays(old(s.config), a.config, p, p in old(s.mounts)) {
        StaysIff(old(s.config), a.config, p, old(s.View(p)));
        assert s.View(p) == Reloaded(old(s.config), a.config, p, old(s.View(p)));
      }
    }
    if a.authOk && old(s.Served()) {
      forall p ensures Lookup(Views(s), p) == Reloaded(old(s.config), a.config, p, Lookup(old(Views(s)), p)) {
        assert s.View(p) == Reloaded(old(s.config), a.config, p, old(s.View(p)));
      }
      StillServed(old(s.config), a.config, old(Views(s)), Views(s));
    }
  }

  /** Start up and take any run of reloads. Whatever the run, the tasks agree with
      the configuration it ends in and none was leaked; two tasks ever shared a path
      exactly when some reload handed a relay's path to an AutoDJ; and the paths that have
      a mount are those that the sections of the configurations say. */
  method RunReloads(c: Config, run: seq<Attempt>) returns (s: Server)
    requires ValidConfig(c) && forall a :: a in run ==> ValidConfig(a.config)
    ensures fresh(s) && s.Inv() && s.config == ConfigAfter(c, run)
    ensures OneAtATime(s.tasks.log) <==> KeepsRelaysApart(c, run)
    ensures forall p :: p in s.mounts <==> RegisteredAfter(c, run, p)
    ensures s.Served() <==> forall p :: Required(ConfigAfter(c, run), p) ==> RegisteredAfter(c, run, p)
  {
    s := new Server(c);
    s.Boot();
    for i := 0 to |run|
      invariant fresh(s) && fresh(s.tasks) && s.Inv() && s.config == ConfigAfter(c, run[..i])
      invariant forall p :: p in s.mounts ==> fresh(s.mounts[p])
      invariant OneAtATime(s.tasks.log) <==> KeepsRelaysApart(c, run[..i])
      invariant forall p :: p in s.mounts <==> RegisteredAfter(c, run[..i], p)
    {
      assert run[..i + 1][..i] == run[..i];
      ReloadOnce(s, run[i]);
    }
    assert run[..|run|] == run;
  }

  // ── The moves that go wrong exist ─────────────────────────────────────────

  function Sample(ms: seq<MountConfig>, djs: seq<AutoDjConfig>, rs: seq<RelayConfig>): Config {
    Config(
      ServerConfig("0.0.0.0:8000", "127.0.0.1:8001", "localhost"), LoggingConfig("info", Json),
      AuthConfig([], None), LimitsConfig(500, 64, 2, None, 65536), ms, djs, rs, None, None)
  }

  const NO_METADATA := Metadata(None, None, None, None)
  const SAMPLE_MOUNT := MountConfig("/a", "secret", None, NO_METADATA, None, None)
  const SAMPLE_DJ :=
    AutoDjConfig(
      "/a", "/music", NO_METADATA, true, true, Shuffle, None, None,
      TranscodeConfig(TranscodeFormat.Mp3, 44100, 128))
  const SAMPLE_RELAY := RelayConfig("/a", "http://up/", NO_METADATA, true, None, None, None, None, None)

  /** An AutoDJ's path turned into a plain mount is left without a mount. */
  lemma AutoDjTurnedMountIsLost(v: MountView)
    ensures var c0, c1 := Sample([], [SAMPLE_DJ], []), Sample([SAMPLE_MOUNT], [], []);
      ValidConfig(c0) && ValidConfig(c1) && Required(c1, "/a") && Reloaded(c0, c1, "/a", Some(v)).None?
  {
    var c0, c1 := Sample([], [SAMPLE_DJ], []), Sample([SAMPLE_MOUNT], [], []);
    RegisteredIff(c0, c1, "/a", Some(v));
  }

  /** A relay's path turned into an AutoDJ's runs both tasks for a moment, and then
      leaves the AutoDJ on a mount that is not registered. */
  lemma RelayTurnedAutoDjOverlaps(v: MountView)
    ensures var c0, c1 := Sample([], [], [SAMPLE_RELAY]), Sample([], [SAMPLE_DJ], []);
      && ValidConfig(c0) && ValidConfig(c1) && RelayBecomesAutoDj(c0, c1)
      && EnabledAt(c1, Key(AutoDjs, "/a")) && Reloaded(c0, c1, "/a", Some(v)).None?
  {
    var c0, c1 := Sample([], [], [SAMPLE_RELAY]), Sample([], [SAMPLE_DJ], []);
    assert EnabledAt(c0, Key(Relays, "/a"));
    RegisteredIff(c0, c1, "/a", Some(v));
  }

  /** An AutoDJ whose folder and name change together is restarted, and its mount goes on
      showing the old name. */
  lemma RenamedAutoDjShowsOldName()
    ensures var dj := SAMPLE_DJ.(folder := "/other", meta := NO_METADATA.(name := Some("new")));
      var c0, c1 := Sample([], [SAMPLE_DJ], []), Sample([], [dj], []);
      var v := TaskSeed(AutoDj(SAMPLE_DJ), c0.limits);
      && ValidConfig(c0) && ValidConfig(c1) && Shows(v, AutoDj(SAMPLE_DJ))
      && Reloaded(c0, c1, "/a", Some(v)) == Some(v) && !Shows(v, AutoDj(dj))
  {
    var dj := SAMPLE_DJ.(folder := "/other", meta := NO_METADATA.(name := Some("new")));
    var c0, c1 := Sample([], [SAMPLE_DJ], []), Sample([], [dj], []);
    OneSection(c1, "/a");
    assert Find(Tasks(c0, AutoDjs), "/a") == Some(AutoDj(SAMPLE_DJ));
    assert Find(Tasks(c1, AutoDjs), "/a") == Some(AutoDj(dj));
  }

  /** A burst size changed in the file reaches a mount that is created then, and not the
      one that survives. */
  lemma ChangedBurstIsNotSeen()
    ensures var dj := SAMPLE_DJ.(burstSize := Some(1));
      var c0, c1 := Sample([], [SAMPLE_DJ], []), Sample([], [dj], []);
      var v := TaskSeed(AutoDj(SAMPLE_DJ), c0.limits);
      && ValidConfig(c0) && ValidConfig(c1) && NeedsRespawn(Tasks(c0, AutoDjs), AutoDj(dj))
      && Reloaded(c0, c1, "/a", None).Some? && Reloaded(c0, c1, "/a", None).value.burst == 1
      && Reloaded(c0, c1, "/a", Some(v)).Some? && Reloaded(c0, c1, "/a", Some(v)).value.burst == 65536
  {
    var dj := SAMPLE_DJ.(burstSize := Some(1));
    var c0, c1 := Sample([], [SAMPLE_DJ], []), Sample([], [dj], []);
    OneSection(c1, "/a");
    assert Find(Tasks(c0, AutoDjs), "/a") == Some(AutoDj(SAMPLE_DJ));
    assert Find(Tasks(c1, AutoDjs), "/a") == Some(AutoDj(dj));
  }

  /** A path that was lost stays lost while its entry stays as it is. */
  lemma LostMountStaysLost()
    ensures var c0, c1 := Sample([], [], [SAMPLE_RELAY]), Sample([], [SAMPLE_DJ], []);
      && !RegisteredAfter(c0, [Attempt(c1, true)], "/a") && Required(c1, "/a")
      && !RegisteredAfter(c0, [Attempt(c1, true), Attempt(c1, true)], "/a")
  {
    var c0, c1 := Sample([], [], [SAMPLE_RELAY]), Sample([], [SAMPLE_DJ], []);
    var run := [Attempt(c1, true), Attempt(c1, true)];
    OneSection(c0, "/a");
    OneSection(c1, "/a");
    assert Find(Tasks(c0, Relays), "/a") == Some(Relay(SAMPLE_RELAY)) && Find(Tasks(c0, AutoDjs), "/a") == None;
    assert Find(Tasks(c1, AutoDjs), "/a") == Some(AutoDj(SAMPLE_DJ)) && Find(Tasks(c1, Relays), "/a") == None;
    assert run[..1] == [Attempt(c1, true)] && run[..1][..0] == [];
    assert !Stays(c0, c1, "/a", true) && !Stays(c1, c1, "/a", false);
  }
}
