/** `apply_config`: the three diff passes over the shared maps of mounts and tasks. */
module Reload {
  import opened Wrappers
  import opened Config
  import opened ReloadSpec

  class ActiveMount {
    /** Every swap of the mount's information copies the path over. */
    const path: string
    var view: MountView

    constructor (p: string, v: MountView)
      ensures path == p && view == v
    {
      path := p;
      view := v;
    }
  }

  lemma RunningAppend(log: seq<TaskEvent>, e: TaskEvent)
    ensures Running(log + [e]) == After(Running(log), e)
    ensures NoLeak(log + [e]) <==> NoLeak(log) && (e.Spawned? ==> KeyOf(e.task) !in Running(log))
    ensures OneAtATime(log + [e]) <==> OneAtATime(log) && (e.Spawned? ==> FreePath(Running(log), e.task.Path()))
  {
    assert (log + [e])[..|log|] == log;
  }

  /** The AutoDJ and the relay registry together, keyed by section and path. */
  class TaskRegistry {
    var entries: map<Key, Task>
    ghost var log: seq<TaskEvent>

    ghost predicate Valid() reads this { entries == Running(log) }

    constructor ()
      ensures Valid() && entries == map[] && log == []
    {
      entries := map[];
      log := [];
    }

    method Cancel(k: Key)
      requires Valid()
      modifies this
      ensures Valid() && entries == old(entries) - {k}
      ensures log == if k in old(entries) then old(log) + [Cancelled(k)] else old(log)
    {
      if k in entries {
        RunningAppend(log, Cancelled(k));
        entries := entries - {k};
        log := log + [Cancelled(k)];
      }
    }

    method Insert(t: Task)
      requires Valid()
      modifies this
      ensures Valid() && entries == old(entries)[KeyOf(t) := t] && log == old(log) + [Spawned(t)]
    {
      RunningAppend(log, Spawned(t));
      entries := entries[KeyOf(t) := t];
      log := log + [Spawned(t)];
    }
  }

  // ── Lookups while a loop is part-way through a list ───────────────────────

  lemma {:induction false} FindSnoc(ts: seq<Task>, t: Task, p: string)
    ensures Find(ts + [t], p) ==
      if Find(ts, p).Some? then Find(ts, p) else if t.Path() == p then Some(t) else None
  {
    if ts != [] {
      assert (ts + [t])[1..] == ts[1..] + [t];
      FindSnoc(ts[1..], t, p);
    }
  }

  lemma {:induction false} FindMountSnoc(ms: seq<MountConfig>, m: MountConfig, p: string)
    ensures FindMount(ms + [m], p) ==
      if FindMount(ms, p).Some? then FindMount(ms, p) else if m.path == p then Some(m) else None
  {
    if ms != [] {
      assert (ms + [m])[1..] == ms[1..] + [m];
      FindMountSnoc(ms[1..], m, p);
    }
  }

  lemma {:induction false} FoundTask(ts: seq<Task>, i: nat)
    requires DistinctTasks(ts) && i < |ts|
    ensures Find(ts, ts[i].Path()) == Some(ts[i])
  {
    if i > 0 { FoundTask(ts[1..], i - 1); }
  }

  lemma {:induction false} FoundMount(ms: seq<MountConfig>, i: nat)
    requires DistinctMounts(ms) && i < |ms|
    ensures FindMount(ms, ms[i].path) == Some(ms[i])
  {
    if i > 0 { FoundMount(ms[1..], i - 1); }
  }

  lemma {:induction false} Unfound(ts: seq<Task>, i: nat)
    requires DistinctTasks(ts) && i < |ts|
    ensures Find(ts[..i], ts[i].Path()).None?
  {
  }

  lemma {:induction false} UnfoundMount(ms: seq<MountConfig>, i: nat)
    requires DistinctMounts(ms) && i < |ms|
    ensures FindMount(ms[..i], ms[i].path).None?
  {
  }

  // ── What a pass has done to the maps once it reached part of a list ───────

  ghost predicate MountsWithout<V>(m: map<string, V>, m0: map<string, V>, was: seq<Task>, ts: seq<Task>) {
    forall p :: Lookup(m, p) == Unless(Removed(was, ts, p), Lookup(m0, p))
  }

  ghost predicate TasksWithout(e: map<Key, Task>, e0: map<Key, Task>, was: seq<Task>, ts: seq<Task>, s: Section) {
    forall k: Key :: Lookup(e, k) == Unless(k.section == s && Removed(was, ts, k.path), Lookup(e0, k))
  }

  ghost predicate TasksUpdated(e: map<Key, Task>, e0: map<Key, Task>, was: seq<Task>, ts: seq<Task>) {
    forall k: Key :: Lookup(e, k) == TaskAfter(was, ts, k, Lookup(e0, k))
  }

  /** Some task is started at a path where the other section has one running. */
  ghost predicate Overlaps(e: map<Key, Task>, was: seq<Task>, ts: seq<Task>) {
    exists t :: t in ts && Starts(was, t) && Key(Other(t.In()), t.Path()) in e
  }

  lemma NothingRemoved<V>(m: map<string, V>, e: map<Key, Task>, was: seq<Task>, ts: seq<Task>, s: Section)
    ensures MountsWithout(m, m, was[..0], ts) && TasksWithout(e, e, was[..0], ts, s)
  {
  }

  lemma RemoveStep<V>(m: map<string, V>, m0: map<string, V>, e: map<Key, Task>, e0: map<Key, Task>,
                      was: seq<Task>, t: Task, ts: seq<Task>)
    requires MountsWithout(m, m0, was, ts) && TasksWithout(e, e0, was, ts, t.In())
    ensures var gone := Find(ts, t.Path()).None?;
      && MountsWithout(if gone then m - {t.Path()} else m, m0, was + [t], ts)
      && TasksWithout(if gone then e - {KeyOf(t)} else e, e0, was + [t], ts, t.In())
  {
    forall p { FindSnoc(was, t, p); }
  }

  function TaskStep(e: map<Key, Task>, was: seq<Task>, t: Task): map<Key, Task> {
    if Starts(was, t) then e[KeyOf(t) := t] else if NeedsRespawn(was, t) then e - {KeyOf(t)} else e
  }

  lemma UpdateStep(e: map<Key, Task>, e0: map<Key, Task>, was: seq<Task>, ts: seq<Task>, t: Task)
    requires TasksUpdated(e, e0, was, ts) && Find(ts, t.Path()).None?
    ensures TasksUpdated(TaskStep(e, was, t), e0, was, ts + [t])
  {
    forall p { FindSnoc(ts, t, p); }
  }

  lemma ViewStep(was: seq<Task>, ts: seq<Task>, t: Task, limits: LimitsConfig)
    requires Find(ts, t.Path()).None?
    ensures forall p, v ::
      AfterTaskUpdates(was, ts + [t], limits, p, v) ==
      AfterTaskUpdates(was, [t], limits, p, AfterTaskUpdates(was, ts, limits, p, v))
  {
    forall p { FindSnoc(ts, t, p); }
  }

  lemma OverlapStep(e: map<Key, Task>, e0: map<Key, Task>, was: seq<Task>, ts: seq<Task>, t: Task)
    requires TasksUpdated(e, e0, was, ts) && forall u :: u in ts ==> u.In() == t.In()
    ensures Overlaps(e0, was, ts + [t]) <==>
      Overlaps(e0, was, ts) || (Starts(was, t) && Key(Other(t.In()), t.Path()) in e)
  {
    var k := Key(Other(t.In()), t.Path());
    assert Lookup(e, k) == TaskAfter(was, ts, k, Lookup(e0, k)) == Lookup(e0, k);
    assert forall u :: u in ts + [t] <==> u in ts || u == t;
  }

  // ── A whole reload ────────────────────────────────────────────────────────

  lemma AllDistinct(c: Config)
    requires UniquePaths(c)
    ensures DistinctMounts(c.mounts) && forall s :: DistinctTasks(Tasks(c, s))
  {
    var all := MountPaths(c) + AutoDjPaths(c) + RelayPaths(c);
    forall i, j | 0 <= i < j < |c.mounts| ensures c.mounts[i].path != c.mounts[j].path {
      assert all[i] != all[j];
    }
    var a, r := |c.mounts|, |c.mounts| + |c.autodjs|;
    forall i, j | 0 <= i < j < |c.autodjs| ensures c.autodjs[i].mount != c.autodjs[j].mount {
      assert all[a + i] != all[a + j];
    }
    forall i, j | 0 <= i < j < |c.relays| ensures c.relays[i].mount != c.relays[j].mount {
      assert all[r + i] != all[r + j];
    }
    forall s ensures DistinctTasks(Tasks(c, s)) {
      if s.AutoDjs? {} else {}
    }
  }

  lemma MountIndex(c: Config, p: string) returns (i: nat)
    requires InMounts(c, p)
    ensures i < |c.mounts| && (MountPaths(c) + AutoDjPaths(c) + RelayPaths(c))[i] == p
  {
    i :| 0 <= i < |c.mounts| && c.mounts[i] == FindMount(c.mounts, p).value;
  }

  lemma TaskIndex(c: Config, k: Key) returns (i: nat)
    requires Configured(c, k)
    ensures i < |c.mounts| + |c.autodjs| + |c.relays|
    ensures |c.mounts| <= i && (k.section.AutoDjs? <==> i < |c.mounts| + |c.autodjs|)
    ensures (MountPaths(c) + AutoDjPaths(c) + RelayPaths(c))[i] == k.path
  {
    var ts := Tasks(c, k.section);
    var j :| 0 <= j < |ts| && ts[j] == Find(ts, k.path).value;
    i := |c.mounts| + j + if k.section.AutoDjs? then 0 else |c.autodjs|;
  }

  lemma SameIndex<T>(s: seq<T>, i: nat, j: nat)
    requires Distinct(s) && i < |s| && j < |s| && s[i] == s[j]
    ensures i == j
  {
  }

  lemma OneSection(c: Config, p: string)
    requires UniquePaths(c)
    ensures !(InMounts(c, p) && Configured(c, Key(AutoDjs, p)))
    ensures !(InMounts(c, p) && Configured(c, Key(Relays, p)))
    ensures !(Configured(c, Key(AutoDjs, p)) && Configured(c, Key(Relays, p)))
  {
    var all := MountPaths(c) + AutoDjPaths(c) + RelayPaths(c);
    if InMounts(c, p) {
      var i := MountIndex(c, p);
      forall s | Configured(c, Key(s, p)) ensures false {
        var j := TaskIndex(c, Key(s, p));
        SameIndex(all, i, j);
      }
    } else if Configured(c, Key(AutoDjs, p)) && Configured(c, Key(Relays, p)) {
      var i := TaskIndex(c, Key(AutoDjs, p));
      var j := TaskIndex(c, Key(Relays, p));
      SameIndex(all, i, j);
    }
  }

  // ── What a mount shows, field by field ────────────────────────────────────

  predicate ShowsMount(v: MountView, m: MountConfig) {
    v.sourcePassword == m.sourcePassword && v.maxListeners == m.maxListeners && v.meta == m.meta
  }

  /** A mount registered for an entry of `[[mounts]]`. */
  predicate NewForMount(v: MountView, m: MountConfig, limits: LimitsConfig) {
    && ShowsMount(v, m) && v.codec == CodecMp3
    && v.burst == if m.burstSize.Some? then m.burstSize.value else limits.burstSize
  }

  /** A mount registered for an AutoDJ or a relay: no source gets in by its password. */
  predicate NewForTask(v: MountView, t: Task, limits: LimitsConfig) {
    match t
    case AutoDj(a) =>
      && v.sourcePassword == "" && v.maxListeners == a.maxListeners && v.meta == a.meta
      && v.codec == (if a.transcode.format.Vorbis? then CodecVorbis else CodecMp3)
      && v.burst == if a.burstSize.Some? then a.burstSize.value else limits.burstSize
    case Relay(r) =>
      && v.sourcePassword == "" && v.maxListeners == r.maxListeners && v.meta == r.meta && v.codec == CodecMp3
      && v.burst == if r.burstSize.Some? then r.burstSize.value else limits.burstSize
  }

  lemma SeedsAreNew(m: MountConfig, t: Task, limits: LimitsConfig)
    ensures NewForMount(MountSeed(m, limits), m, limits) && NewForTask(TaskSeed(t, limits), t, limits)
  {
  }

  lemma MountIsFound(c: Config, m: MountConfig)
    requires UniquePaths(c) && m in c.mounts
    ensures FindMount(c.mounts, m.path) == Some(m)
    ensures !Configured(c, Key(AutoDjs, m.path)) && !Configured(c, Key(Relays, m.path))
  {
    AllDistinct(c);
    var i :| 0 <= i < |c.mounts| && c.mounts[i] == m;
    FoundMount(c.mounts, i);
    OneSection(c, m.path);
  }

  lemma TaskIsFound(c: Config, t: Task)
    requires UniquePaths(c) && t in Tasks(c, t.In())
    ensures Find(Tasks(c, t.In()), t.Path()) == Some(t)
    ensures !InMounts(c, t.Path()) && Find(Tasks(c, Other(t.In())), t.Path()).None?
  {
    AllDistinct(c);
    var ts := Tasks(c, t.In());
    var i :| 0 <= i < |ts| && ts[i] == t;
    FoundTask(ts, i);
    assert Configured(c, KeyOf(t));
    OneSection(c, t.Path());
    assert !Configured(c, Key(Other(t.In()), t.Path()));
  }

  /** An entry of `[[mounts]]` after a reload: gone when its path was an AutoDJ's or a
      relay's; else it has the entry's password, listener limit and metadata, and the
      codec and burst size of the mount that was there, if one was. */
  lemma MountEntryShown(c0: Config, c1: Config, m: MountConfig, v: Option<MountView>)
    requires UniquePaths(c0) && UniquePaths(c1) && m in c1.mounts
    ensures var r := Reloaded(c0, c1, m.path, v);
      if Configured(c0, Key(AutoDjs, m.path)) || Configured(c0, Key(Relays, m.path)) then r.None?
      else
        && r.Some?
        && r.value.sourcePassword == m.sourcePassword
        && r.value.maxListeners == m.maxListeners
        && r.value.meta == m.meta
        && r.value.codec == (if v.Some? then v.value.codec else CodecMp3)
        && r.value.burst == (
          if v.Some? then v.value.burst else if m.burstSize.Some? then m.burstSize.value else c1.limits.burstSize)
  {
    MountIsFound(c1, m);
  }

  /** The mount an AutoDJ's or relay's passes find at its path. */
  function FoundByTask(c0: Config, t: Task, v: Option<MountView>): Option<MountView> {
    if InMounts(c0, t.Path()) || (t.Relay? && Configured(c0, Key(AutoDjs, t.Path()))) then None else v
  }

  /** An AutoDJ or relay entry after a reload. An AutoDJ on a relay's old path has no
      mount. A restarted entry gets a new mount if there is none; one that is not restarted
      only swaps its listener limit and metadata. */
  lemma TaskEntryShown(c0: Config, c1: Config, t: Task, v: Option<MountView>)
    requires UniquePaths(c0) && UniquePaths(c1) && t in Tasks(c1, t.In())
    ensures var r, was := Reloaded(c0, c1, t.Path(), v), FoundByTask(c0, t, v);
      if t.AutoDj? && Configured(c0, Key(Relays, t.Path())) then r.None?
      else if NeedsRespawn(Tasks(c0, t.In()), t) then
        r.Some? && (if was.Some? then r == was else NewForTask(r.value, t, c1.limits))
      else if was.None? then r.None?
      else
        && r.Some?
        && r.value.maxListeners == t.MaxListeners() && r.value.meta == t.Meta()
        && r.value.sourcePassword == was.value.sourcePassword
        && r.value.codec == was.value.codec && r.value.burst == was.value.burst
  {
    TaskIsFound(c1, t);
    OneSection(c0, t.Path());
  }

  lemma AgreesAfterPass(e0: map<Key, Task>, e1: map<Key, Task>, e2: map<Key, Task>, c0: Config, c1: Config, k: Key)
    requires AgreesAt(e0, c0, k)
    requires TasksWithout(e1, e0, Tasks(c0, k.section), Tasks(c1, k.section), k.section)
    requires TasksUpdated(e2, e1, Tasks(c0, k.section), Tasks(c1, k.section))
    ensures AgreesAt(e2, c1, k)
  {
    assert Lookup(e2, k) == TaskAfter(Tasks(c0, k.section), Tasks(c1, k.section), k, Lookup(e1, k));
    assert Lookup(e1, k) == Unless(Removed(Tasks(c0, k.section), Tasks(c1, k.section), k.path), Lookup(e0, k));
  }

  lemma UntouchedByPass(e0: map<Key, Task>, e1: map<Key, Task>, e2: map<Key, Task>, c0: Config, c1: Config, k: Key)
    requires TasksWithout(e1, e0, Tasks(c0, Other(k.section)), Tasks(c1, Other(k.section)), Other(k.section))
    requires TasksUpdated(e2, e1, Tasks(c0, Other(k.section)), Tasks(c1, Other(k.section)))
    ensures Lookup(e2, k) == Lookup(e1, k) == Lookup(e0, k)
  {
    assert Lookup(e2, k) == TaskAfter(Tasks(c0, Other(k.section)), Tasks(c1, Other(k.section)), k, Lookup(e1, k));
    assert Lookup(e1, k) ==
      Unless(k.section == Other(k.section) && Removed(Tasks(c0, Other(k.section)), Tasks(c1, Other(k.section)), k.path),
        Lookup(e0, k));
  }

  /** Agreement of the section's own tasks is carried over; the others are left alone. */
  ghost predicate PassedTasks(e0: map<Key, Task>, e: map<Key, Task>, c0: Config, c1: Config, s: Section) {
    && (forall p :: AgreesAt(e0, c0, Key(s, p)) ==> AgreesAt(e, c1, Key(s, p)))
    && (forall p :: Lookup(e, Key(Other(s), p)) == Lookup(e0, Key(Other(s), p)))
  }

  lemma TasksOfPass(e0: map<Key, Task>, e1: map<Key, Task>, e2: map<Key, Task>, c0: Config, c1: Config, s: Section)
    requires TasksWithout(e1, e0, Tasks(c0, s), Tasks(c1, s), s)
    requires TasksUpdated(e2, e1, Tasks(c0, s), Tasks(c1, s))
    ensures PassedTasks(e0, e2, c0, c1, s)
    ensures Overlaps(e1, Tasks(c0, s), Tasks(c1, s)) <==> Overlaps(e0, Tasks(c0, s), Tasks(c1, s))
  {
    forall p | AgreesAt(e0, c0, Key(s, p)) ensures AgreesAt(e2, c1, Key(s, p)) {
      AgreesAfterPass(e0, e1, e2, c0, c1, Key(s, p));
    }
    forall p ensures Lookup(e2, Key(Other(s), p)) == Lookup(e1, Key(Other(s), p)) == Lookup(e0, Key(Other(s), p)) {
      UntouchedByPass(e0, e1, e2, c0, c1, Key(Other(s), p));
    }
    forall k: Key | k.section == Other(s) ensures Lookup(e1, k) == Lookup(e0, k) {
      assert k == Key(Other(s), k.path);
    }
    OverlapsOfOther(e1, e0, Tasks(c0, s), Tasks(c1, s), s);
  }

  lemma SameAgreement(e: map<Key, Task>, e': map<Key, Task>, c: Config, k: Key)
    requires Lookup(e, k) == Lookup(e', k) && AgreesAt(e, c, k)
    ensures AgreesAt(e', c, k)
  {
  }

  /** A relay entry that is enabled before the reload and an AutoDJ entry that is
      enabled after it have the same path. */
  ghost predicate RelayBecomesAutoDj(c0: Config, c1: Config) {
    exists p :: EnabledAt(c0, Key(Relays, p)) && EnabledAt(c1, Key(AutoDjs, p))
  }

  lemma OverlapsInAutoDjPass(e: map<Key, Task>, c0: Config, c1: Config)
    requires UniquePaths(c0) && UniquePaths(c1) && forall p :: AgreesAt(e, c0, Key(Relays, p))
    ensures Overlaps(e, Tasks(c0, AutoDjs), Tasks(c1, AutoDjs)) <==> RelayBecomesAutoDj(c0, c1)
  {
    AllDistinct(c1);
    var was, ts := Tasks(c0, AutoDjs), Tasks(c1, AutoDjs);
    forall t | t in ts
      ensures Starts(was, t) && Key(Relays, t.Path()) in e <==>
        EnabledAt(c0, Key(Relays, t.Path())) && EnabledAt(c1, Key(AutoDjs, t.Path()))
    {
      var i :| 0 <= i < |ts| && ts[i] == t;
      FoundTask(ts, i);
      OneSection(c0, t.Path());
      assert AgreesAt(e, c0, Key(Relays, t.Path()));
    }
    if RelayBecomesAutoDj(c0, c1) {
      var p :| EnabledAt(c0, Key(Relays, p)) && EnabledAt(c1, Key(AutoDjs, p));
      assert Find(ts, p).value in ts;
    }
  }

  lemma OverlapsOfOther(e: map<Key, Task>, e': map<Key, Task>, was: seq<Task>, ts: seq<Task>, s: Section)
    requires forall t :: t in ts ==> t.In() == s
    requires forall k: Key :: k.section == Other(s) ==> Lookup(e, k) == Lookup(e', k)
    ensures Overlaps(e, was, ts) <==> Overlaps(e', was, ts)
  {
    forall t | t in ts ensures Key(Other(t.In()), t.Path()) in e <==> Key(Other(t.In()), t.Path()) in e' {
      assert Lookup(e, Key(Other(t.In()), t.Path())) == Lookup(e', Key(Other(t.In()), t.Path()));
    }
  }

  lemma TasksOfReload(e0: map<Key, Task>, e1: map<Key, Task>, e2: map<Key, Task>, c0: Config, c1: Config)
    requires UniquePaths(c0) && UniquePaths(c1) && TasksAgree(e0, c0)
    requires PassedTasks(e0, e1, c0, c1, AutoDjs) && PassedTasks(e1, e2, c0, c1, Relays)
    ensures TasksAgree(e2, c1)
    ensures Overlaps(e0, Tasks(c0, AutoDjs), Tasks(c1, AutoDjs)) <==> RelayBecomesAutoDj(c0, c1)
    ensures !Overlaps(e1, Tasks(c0, Relays), Tasks(c1, Relays))
  {
    OverlapsInAutoDjPass(e0, c0, c1);
    forall p ensures AgreesAt(e1, c1, Key(AutoDjs, p)) {
      assert AgreesAt(e0, c0, Key(AutoDjs, p));
    }
    NoOverlapInRelayPass(e1, c0, c1);
    forall k: Key ensures AgreesAt(e2, c1, k) {
      if k.section.Relays? {
        assert k == Key(Other(AutoDjs), k.path) && AgreesAt(e0, c0, k);
        SameAgreement(e0, e1, c0, k);
      } else {
        assert k == Key(Other(Relays), k.path) && AgreesAt(e1, c1, k);
        SameAgreement(e1, e2, c1, k);
      }
    }
  }

  lemma NothingToRespawn(ts: seq<Task>)
    requires DistinctTasks(ts)
    ensures forall t :: t in ts ==> Find(ts, t.Path()).Some? && !NeedsRespawn(ts, t)
  {
    forall t | t in ts ensures Find(ts, t.Path()).Some? && !NeedsRespawn(ts, t) {
      var i :| 0 <= i < |ts| && ts[i] == t;
      FoundTask(ts, i);
    }
  }

  lemma NoOverlapInRelayPass(e3: map<Key, Task>, c0: Config, c1: Config)
    requires UniquePaths(c1) && forall p :: AgreesAt(e3, c1, Key(AutoDjs, p))
    ensures !Overlaps(e3, Tasks(c0, Relays), Tasks(c1, Relays))
  {
    var ts := Tasks(c1, Relays);
    AllDistinct(c1);
    forall t | t in ts ensures Key(AutoDjs, t.Path()) !in e3 {
      var i :| 0 <= i < |ts| && ts[i] == t;
      FoundTask(ts, i);
      OneSection(c1, t.Path());
      assert AgreesAt(e3, c1, Key(AutoDjs, t.Path()));
    }
  }

  lemma MountViewStep(ms: seq<MountConfig>, m: MountConfig, limits: LimitsConfig)
    requires FindMount(ms, m.path).None?
    ensures forall p, v ::
      AfterMountUpdates(ms + [m], limits, p, v) ==
      AfterMountUpdates([m], limits, p, AfterMountUpdates(ms, limits, p, v))
  {
    forall p { FindMountSnoc(ms, m, p); }
  }

  ghost predicate MountsMinus<V>(m: map<string, V>, m0: map<string, V>, was: seq<MountConfig>, ms: seq<MountConfig>) {
    forall p :: Lookup(m, p) == Unless(RemovedMount(was, ms, p), Lookup(m0, p))
  }

  lemma RemoveMountStep<V>(m: map<string, V>, m0: map<string, V>,
                           was: seq<MountConfig>, gone: MountConfig, ms: seq<MountConfig>)
    requires MountsMinus(m, m0, was, ms)
    ensures MountsMinus(if FindMount(ms, gone.path).None? then m - {gone.path} else m, m0, was + [gone], ms)
  {
    forall p { FindMountSnoc(was, gone, p); }
  }

  // ── The server ────────────────────────────────────────────────────────────

  datatype Warning = StreamBindChanged | AdminBindChanged | RingSizeChanged

  class Server {
    var config: Config
    var mounts: map<string, ActiveMount>
    const tasks: TaskRegistry

    /** Mounts are registered under their own path, so no mount is shared. */
    ghost predicate Valid()
      reads this, tasks, mounts.Values
    {
      tasks.Valid() && forall p :: p in mounts ==> mounts[p].path == p
    }

    ghost function View(p: string): Option<MountView>
      reads this, mounts.Values
    {
      if p in mounts then Some(mounts[p].view) else None
    }

    constructor (c: Config)
      ensures Valid() && config == c && mounts == map[] && tasks.log == [] && fresh(tasks)
    {
      config := c;
      mounts := map[];
      tasks := new TaskRegistry();
    }

    /** Remove the mounts and tasks of the entries of `was` that `ts` no longer has. */
    method RemoveTasks(was: seq<Task>, ts: seq<Task>, s: Section)
      requires Valid() && forall t :: t in was ==> t.In() == s
      modifies this`mounts, tasks
      ensures Valid()
      ensures MountsWithout(mounts, old(mounts), was, ts)
      ensures TasksWithout(tasks.entries, old(tasks.entries), was, ts, s)
      ensures NoLeak(tasks.log) <==> old(NoLeak(tasks.log))
      ensures OneAtATime(tasks.log) <==> old(OneAtATime(tasks.log))
      ensures (forall t :: t in was ==> Find(ts, t.Path()).Some?) ==> tasks.log == old(tasks.log)
    {
      hide MountsWithout, TasksWithout, NoLeak, OneAtATime, Running, Find;
      NothingRemoved(mounts, tasks.entries, was, ts, s);
      for i := 0 to |was|
        invariant Valid()
        invariant MountsWithout(mounts, old(mounts), was[..i], ts)
        invariant TasksWithout(tasks.entries, old(tasks.entries), was[..i], ts, s)
        invariant NoLeak(tasks.log) <==> old(NoLeak(tasks.log))
        invariant OneAtATime(tasks.log) <==> old(OneAtATime(tasks.log))
        invariant (forall t :: t in was ==> Find(ts, t.Path()).Some?) ==> tasks.log == old(tasks.log)
      {
        var t := was[i];
        assert was[..i + 1] == was[..i] + [t];
        RemoveStep(mounts, old(mounts), tasks.entries, old(tasks.entries), was[..i], t, ts);
        if Find(ts, t.Path()).None? {
          RunningAppend(tasks.log, Cancelled(KeyOf(t)));
          tasks.Cancel(KeyOf(t));
          mounts := mounts - {t.Path()};
        }
      }
      assert was[..|was|] == was;
    }

    /** Register a mount for the task unless its path has one. */
    method EnsureMount(t: Task, limits: LimitsConfig)
      requires Valid()
      modifies this`mounts
      ensures Valid()
      ensures mounts.Keys == old(mounts.Keys) + {t.Path()}
      ensures forall p :: p in old(mounts) ==> mounts[p] == old(mounts[p])
      ensures t.Path() !in old(mounts) ==> fresh(mounts[t.Path()]) && View(t.Path()) == Some(TaskSeed(t, limits))
    {
      if t.Path() !in mounts {
        var mount := new ActiveMount(t.Path(), TaskSeed(t, limits));
        mounts := mounts[t.Path() := mount];
      }
    }

    /** Stop the entry's task if it runs, and start it again if it is enabled. */
    method Restart(t: Task, limits: LimitsConfig)
      requires Valid()
      modifies this`mounts, tasks
      ensures Valid()
      ensures mounts.Keys == old(mounts.Keys) + {t.Path()}
      ensures forall p :: p in old(mounts) ==> mounts[p] == old(mounts[p])
      ensures t.Path() !in old(mounts) ==> fresh(mounts[t.Path()]) && View(t.Path()) == Some(TaskSeed(t, limits))
      ensures tasks.entries ==
        if t.Enabled() then old(tasks.entries)[KeyOf(t) := t] else old(tasks.entries) - {KeyOf(t)}
      ensures NoLeak(tasks.log) <==> old(NoLeak(tasks.log))
      ensures OneAtATime(tasks.log) <==>
        old(OneAtATime(tasks.log)) && !(t.Enabled() && Key(Other(t.In()), t.Path()) in old(tasks.entries))
    {
      RunningAppend(tasks.log, Cancelled(KeyOf(t)));
      tasks.Cancel(KeyOf(t));
      EnsureMount(t, limits);
      if t.Enabled() {
        RunningAppend(tasks.log, Spawned(t));
        tasks.Insert(t);
      }
    }

    /** Restart the task of one entry, or only swap its mount's display fields. */
    method UpdateTask(was: seq<Task>, t: Task, limits: LimitsConfig)
      requires Valid()
      modifies this`mounts, tasks, mounts.Values
      ensures Valid()
      ensures forall p :: p in old(mounts) ==> p in mounts && mounts[p] == old(mounts[p])
      ensures forall p :: p in mounts && p !in old(mounts) ==> fresh(mounts[p])
      ensures forall p :: View(p) == AfterTaskUpdates(was, [t], limits, p, old(View(p)))
      ensures tasks.entries == TaskStep(old(tasks.entries), was, t)
      ensures NoLeak(tasks.log) <==> old(NoLeak(tasks.log))
      ensures OneAtATime(tasks.log) <==>
        old(OneAtATime(tasks.log)) && !(Starts(was, t) && Key(Other(t.In()), t.Path()) in old(tasks.entries))
      ensures !NeedsRespawn(was, t) ==> tasks.log == old(tasks.log)
    {
      if NeedsRespawn(was, t) {
        Restart(t, limits);
      } else if t.Path() in mounts {
        mounts[t.Path()].view := TaskUpdated(t, mounts[t.Path()].view);
      }
    }

    method UpdateTasks(was: seq<Task>, ts: seq<Task>, s: Section, limits: LimitsConfig)
      requires Valid() && DistinctTasks(ts) && forall t :: t in ts ==> t.In() == s
      modifies this`mounts, tasks, mounts.Values
      ensures Valid()
      ensures forall p :: p in old(mounts) ==> p in mounts && mounts[p] == old(mounts[p])
      ensures forall p :: p in mounts && p !in old(mounts) ==> fresh(mounts[p])
      ensures forall p :: View(p) == AfterTaskUpdates(was, ts, limits, p, old(View(p)))
      ensures TasksUpdated(tasks.entries, old(tasks.entries), was, ts)
      ensures NoLeak(tasks.log) <==> old(NoLeak(tasks.log))
      ensures OneAtATime(tasks.log) <==> old(OneAtATime(tasks.log)) && !Overlaps(old(tasks.entries), was, ts)
      ensures (forall t :: t in ts ==> !NeedsRespawn(was, t)) ==> tasks.log == old(tasks.log)
    {
      for i := 0 to |ts|
        invariant Valid()
        invariant forall p :: p in old(mounts) ==> p in mounts && mounts[p] == old(mounts[p])
        invariant forall p :: p in mounts && p !in old(mounts) ==> fresh(mounts[p])
        invariant forall p :: View(p) == AfterTaskUpdates(was, ts[..i], limits, p, old(View(p)))
        invariant TasksUpdated(tasks.entries, old(tasks.entries), was, ts[..i])
        invariant NoLeak(tasks.log) <==> old(NoLeak(tasks.log))
        invariant OneAtATime(tasks.log) <==> old(OneAtATime(tasks.log)) && !Overlaps(old(tasks.entries), was, ts[..i])
        invariant (forall t :: t in ts ==> !NeedsRespawn(was, t)) ==> tasks.log == old(tasks.log)
      {
        var t := ts[i];
        assert ts[..i + 1] == ts[..i] + [t];
        Unfound(ts, i);
        UpdateStep(tasks.entries, old(tasks.entries), was, ts[..i], t);
        ViewStep(was, ts[..i], t, limits);
        OverlapStep(tasks.entries, old(tasks.entries), was, ts[..i], t);
        UpdateTask(was, t, limits);
      }
      assert ts[..|ts|] == ts;
    }

    method UpdateMount(m: MountConfig, limits: LimitsConfig)
      requires Valid()
      modifies this`mounts, mounts.Values
      ensures Valid()
      ensures forall p :: p in old(mounts) ==> p in mounts && mounts[p] == old(mounts[p])
      ensures forall p :: p in mounts && p !in old(mounts) ==> fresh(mounts[p])
      ensures forall p :: View(p) == AfterMountUpdates([m], limits, p, old(View(p)))
    {
      if m.path in mounts {
        mounts[m.path].view := MountUpdated(m, mounts[m.path].view);
      } else {
        var mount := new ActiveMount(m.path, MountSeed(m, limits));
        mounts := mounts[m.path := mount];
      }
    }

    method UpdateMounts(ms: seq<MountConfig>, limits: LimitsConfig)
      requires Valid() && DistinctMounts(ms)
      modifies this`mounts, mounts.Values
      ensures Valid()
      ensures forall p :: p in old(mounts) ==> p in mounts && mounts[p] == old(mounts[p])
      ensures forall p :: p in mounts && p !in old(mounts) ==> fresh(mounts[p])
      ensures forall p :: View(p) == AfterMountUpdates(ms, limits, p, old(View(p)))
    {
      for i := 0 to |ms|
        invariant Valid()
        invariant forall p :: p in old(mounts) ==> p in mounts && mounts[p] == old(mounts[p])
        invariant forall p :: p in mounts && p !in old(mounts) ==> fresh(mounts[p])
        invariant forall p :: View(p) == AfterMountUpdates(ms[..i], limits, p, old(View(p)))
      {
        assert ms[..i + 1] == ms[..i] + [ms[i]];
        UnfoundMount(ms, i);
        MountViewStep(ms[..i], ms[i], limits);
        UpdateMount(ms[i], limits);
      }
      assert ms[..|ms|] == ms;
    }

    method RemoveMounts(was: seq<MountConfig>, ms: seq<MountConfig>)
      requires Valid()
      modifies this`mounts
      ensures Valid()
      ensures MountsMinus(mounts, old(mounts), was, ms)
    {
      for i := 0 to |was|
        invariant Valid()
        invariant MountsMinus(mounts, old(mounts), was[..i], ms)
      {
        assert was[..i + 1] == was[..i] + [was[i]];
        RemoveMountStep(mounts, old(mounts), was[..i], was[i], ms);
        if FindMount(ms, was[i].path).None? {
          mounts := mounts - {was[i].path};
        }
      }
      assert was[..|was|] == was;
    }

    method MountPass(c1: Config)
      requires Valid() && DistinctMounts(c1.mounts)
      modifies this`mounts, mounts.Values
      ensures Valid()
      ensures forall p :: p in old(mounts) && !DroppedMount(config, c1, p) ==>
        p in mounts && mounts[p] == old(mounts[p])
      ensures forall p :: p in mounts && (p !in old(mounts) || DroppedMount(config, c1, p)) ==> fresh(mounts[p])
      ensures forall p :: View(p) == AfterMountPass(config, c1, p, old(View(p)))
    {
      UpdateMounts(c1.mounts, c1.limits);
      label updated:
      RemoveMounts(config.mounts, c1.mounts);
      forall p ensures View(p) == Unless(DroppedMount(config, c1, p), old@updated(View(p))) {
        assert Lookup(mounts, p) == Unless(DroppedMount(config, c1, p), Lookup(old@updated(mounts), p));
      }
      forall p | p in mounts ensures p in old@updated(mounts) && mounts[p] == old@updated(mounts[p]) {
        assert Lookup(mounts, p) == Unless(DroppedMount(config, c1, p), Lookup(old@updated(mounts), p));
      }
      forall p | p in old@updated(mounts) && !DroppedMount(config, c1, p)
        ensures p in mounts && mounts[p] == old@updated(mounts[p])
      {
        assert Lookup(mounts, p) == Lookup(old@updated(mounts), p);
      }
    }

    method TaskPass(c1: Config, s: Section)
      requires Valid() && DistinctTasks(Tasks(c1, s))
      modifies this`mounts, tasks, mounts.Values
      ensures Valid()
      ensures forall p :: p in old(mounts) && !DroppedTask(config, c1, Key(s, p)) ==>
        p in mounts && mounts[p] == old(mounts[p])
      ensures forall p :: p in mounts && (p !in old(mounts) || DroppedTask(config, c1, Key(s, p))) ==> fresh(mounts[p])
      ensures forall p :: View(p) == AfterTaskPass(config, c1, Key(s, p), old(View(p)))
      ensures PassedTasks(old(tasks.entries), tasks.entries, config, c1, s)
      ensures NoLeak(tasks.log) <==> old(NoLeak(tasks.log))
      ensures OneAtATime(tasks.log) <==>
        old(OneAtATime(tasks.log)) && !Overlaps(old(tasks.entries), Tasks(config, s), Tasks(c1, s))
      ensures c1 == config ==> tasks.log == old(tasks.log)
    {
      hide NoLeak, OneAtATime, Overlaps, PassedTasks, TasksWithout, TasksUpdated, Running, NeedsRespawn, Tasks;
      NothingToRespawn(Tasks(c1, s));
      RemoveTasks(Tasks(config, s), Tasks(c1, s), s);
      ghost var dropped := iset p | DroppedTask(config, c1, Key(s, p));
      forall p ensures View(p) == Unless(p in dropped, old(View(p))) {
        assert Lookup(mounts, p) == Unless(p in dropped, Lookup(old(mounts), p));
      }
      forall p | p in mounts ensures p in old(mounts) && p !in dropped && mounts[p] == old(mounts[p]) {
        assert Lookup(mounts, p) == Unless(p in dropped, Lookup(old(mounts), p));
      }
      forall p | p in old(mounts) && p !in dropped ensures p in mounts {
        assert Lookup(mounts, p) == Lookup(old(mounts), p);
      }
      ghost var e1 := tasks.entries;
      UpdateTasks(Tasks(config, s), Tasks(c1, s), s, c1.limits);
      TasksOfPass(old(tasks.entries), e1, tasks.entries, config, c1, s);
    }

    /** What every reload keeps. */
    ghost predicate Inv()
      reads this, tasks, mounts.Values
    {
      && Valid() && ValidConfig(config)
      && TasksAgree(tasks.entries, config) && NoLeak(tasks.log)
    }

    method TaskPasses(c1: Config)
      requires Inv() && ValidConfig(c1)
      modifies this`mounts, tasks, mounts.Values
      ensures Valid() && TasksAgree(tasks.entries, c1) && NoLeak(tasks.log)
      ensures forall p :: View(p) == AfterTaskPasses(config, c1, p, old(View(p)))
      ensures forall p :: p in old(mounts) && !DroppedAsTask(config, c1, p) ==>
        p in mounts && mounts[p] == old(mounts[p])
      ensures forall p :: p in mounts && (p !in old(mounts) || DroppedAsTask(config, c1, p)) ==> fresh(mounts[p])
      ensures OneAtATime(tasks.log) <==> old(OneAtATime(tasks.log)) && !RelayBecomesAutoDj(config, c1)
      ensures c1 == config ==> tasks.log == old(tasks.log)
    {
      AllDistinct(c1);
      TaskPass(c1, AutoDjs);
      ghost var e1 := tasks.entries;
      TaskPass(c1, Relays);
      TasksOfReload(old(tasks.entries), e1, tasks.entries, config, c1);
    }

    method Passes(c1: Config)
      requires Inv() && ValidConfig(c1)
      modifies this`mounts, tasks, mounts.Values
      ensures Valid() && TasksAgree(tasks.entries, c1) && NoLeak(tasks.log)
      ensures forall p :: View(p) == Reloaded(config, c1, p, old(View(p)))
      ensures forall p :: p in old(mounts) && !Dropped(config, c1, p) ==> p in mounts && mounts[p] == old(mounts[p])
      ensures forall p :: p in mounts && (p !in old(mounts) || Dropped(config, c1, p)) ==> fresh(mounts[p])
      ensures OneAtATime(tasks.log) <==> old(OneAtATime(tasks.log)) && !RelayBecomesAutoDj(config, c1)
      ensures c1 == config ==> tasks.log == old(tasks.log)
    {
      AllDistinct(c1);
      MountPass(c1);
      TaskPasses(c1);
    }

    /** `apply_config`: check the restart-only fields, reload the credentials, then
        run the three passes in order and publish the new configuration. */
    method Apply(c1: Config, authOk: bool) returns (r: Result<seq<Warning>, string>)
      requires Inv() && ValidConfig(c1)
      modifies this, tasks, mounts.Values
      ensures Inv()
      ensures r.Ok? <==> authOk
      ensures r.Err? ==> config == old(config) && mounts == old(mounts) && tasks.log == old(tasks.log)
      ensures r.Err? ==> tasks.entries == old(tasks.entries) && forall p :: View(p) == old(View(p))
      ensures r.Ok? ==> config == c1 && r.value == RestartWarnings(old(config), c1)
      ensures r.Ok? ==> forall p :: View(p) == Reloaded(old(config), c1, p, old(View(p)))
      ensures r.Ok? ==> forall p :: p in old(mounts) && !Dropped(old(config), c1, p) ==>
        p in mounts && mounts[p] == old(mounts[p])
      ensures r.Ok? ==> forall p :: p in mounts && (p !in old(mounts) || Dropped(old(config), c1, p)) ==>
        fresh(mounts[p])
      ensures r.Ok? ==> forall m ::
        m in c1.mounts && !Configured(old(config), Key(AutoDjs, m.path))
        && !Configured(old(config), Key(Relays, m.path))
        ==> m.path in mounts && ShowsMount(mounts[m.path].view, m)
      ensures r.Ok? ==>
        (OneAtATime(tasks.log) <==> old(OneAtATime(tasks.log)) && !RelayBecomesAutoDj(old(config), c1))
      ensures c1 == old(config) ==> tasks.log == old(tasks.log)
    {
      var warnings := [];
      if config.server.streamBind != c1.server.streamBind { warnings := warnings + [StreamBindChanged]; }
      if config.server.adminBind != c1.server.adminBind { warnings := warnings + [AdminBindChanged]; }
      if config.limits.ringSize != c1.limits.ringSize { warnings := warnings + [RingSizeChanged]; }
      if !authOk {
        return Err("auth reload error");
      }
      Passes(c1);
      ghost var c0 := config;
      config := c1;
      forall m | m in c1.mounts && !Configured(c0, Key(AutoDjs, m.path)) && !Configured(c0, Key(Relays, m.path))
        ensures m.path in mounts && ShowsMount(mounts[m.path].view, m)
      {
        MountEntryShown(c0, c1, m, old(View(m.path)));
        assert View(m.path) == Reloaded(c0, c1, m.path, old(View(m.path)));
      }
      r := Ok(warnings);
    }

    /** Every mount the configuration needs is registered. */
    ghost predicate Served()
      reads this, mounts.Values
    {
      forall p :: Required(config, p) ==> p in mounts
    }

    /** Tasks run only where a mount is registered, and at most one at a path. */
    ghost predicate Booting()
      reads this, tasks, mounts.Values
    {
      && Valid() && NoLeak(tasks.log) && OneAtATime(tasks.log)
      && forall k :: k in tasks.entries ==> k.path in mounts
    }

    method BootMount(m: MountConfig)
      requires Booting()
      modifies this`mounts
      ensures Booting() && mounts.Keys == old(mounts.Keys) + {m.path}
      ensures forall p :: p in mounts ==> (p in old(mounts) && mounts[p] == old(mounts[p])) || fresh(mounts[p])
      ensures View(m.path) == Some(MountSeed(m, config.limits))
      ensures forall p :: p != m.path ==> View(p) == old(View(p))
    {
      var mount := new ActiveMount(m.path, MountSeed(m, config.limits));
      mounts := mounts[m.path := mount];
    }

    method BootTask(t: Task)
      requires Booting() && t.Path() !in mounts
      modifies this`mounts, tasks
      ensures Booting() && mounts.Keys == old(mounts.Keys) + {t.Path()}
      ensures forall p :: p in mounts ==> (p in old(mounts) && mounts[p] == old(mounts[p])) || fresh(mounts[p])
      ensures tasks.entries == if t.Enabled() then old(tasks.entries)[KeyOf(t) := t] else old(tasks.entries)
      ensures View(t.Path()) == Some(TaskSeed(t, config.limits))
      ensures forall p :: p != t.Path() ==> View(p) == old(View(p))
    {
      EnsureMount(t, config.limits);
      if t.Enabled() {
        RunningAppend(tasks.log, Spawned(t));
        tasks.Insert(t);
      }
    }

    method BootMounts()
      requires Booting() && ValidConfig(config) && mounts == map[]
      modifies this`mounts
      ensures Booting()
      ensures forall p :: p in mounts <==> InMounts(config, p)
      ensures forall p :: p in mounts ==> fresh(mounts[p])
      ensures forall p :: View(p) == MountSeedAt(config.mounts, config.limits, p)
    {
      var ms := config.mounts;
      AllDistinct(config);
      for i := 0 to |ms|
        invariant Booting() && ms == config.mounts
        invariant forall p :: View(p) == MountSeedAt(ms[..i], config.limits, p)
        invariant forall p :: p in mounts <==> FindMount(ms[..i], p).Some?
        invariant forall p :: p in mounts ==> fresh(mounts[p])
      {
        assert ms[..i + 1] == ms[..i] + [ms[i]];
        forall p { FindMountSnoc(ms[..i], ms[i], p); }
        UnfoundMount(ms, i);
        BootMount(ms[i]);
      }
      assert ms[..|ms|] == ms;
    }

    method BootTasks(s: Section)
      requires Booting() && ValidConfig(config)
      requires forall p :: Configured(config, Key(s, p)) ==> p !in mounts
      requires forall k :: k in tasks.entries ==> k.section != s
      modifies this`mounts, tasks
      ensures Booting()
      ensures forall p :: p in mounts <==> p in old(mounts) || Configured(config, Key(s, p))
      ensures forall p :: p in mounts ==> (p in old(mounts) && mounts[p] == old(mounts[p])) || fresh(mounts[p])
      ensures StartedFor(tasks.entries, old(tasks.entries), Tasks(config, s), s)
      ensures forall p :: View(p) == TaskSeedAt(Tasks(config, s), config.limits, p, old(View(p)))
    {
      hide StartedFor, AgreesWith, NoLeak, OneAtATime, Running, DistinctTasks, Server.Booting, Find, Tasks, UniquePaths;
      var ts := Tasks(config, s);
      AllDistinct(config);
      NothingStarted(tasks.entries, ts, s);
      for i := 0 to |ts|
        invariant Booting()
        invariant forall p :: p in mounts <==> p in old(mounts) || Find(ts[..i], p).Some?
        invariant forall p :: p in mounts ==> (p in old(mounts) && mounts[p] == old(mounts[p])) || fresh(mounts[p])
        invariant StartedFor(tasks.entries, old(tasks.entries), ts[..i], s)
        invariant forall p :: View(p) == TaskSeedAt(ts[..i], config.limits, p, old(View(p)))
      {
        var t := ts[i];
        assert ts[..i + 1] == ts[..i] + [t];
        FoundTask(ts, i);
        Unfound(ts, i);
        forall p { TaskSeedNext(ts[..i], t, config.limits, p, old(View(p))); }
        assert Configured(config, Key(s, t.Path()));
        StartStep(tasks.entries, old(tasks.entries), ts[..i], t, s);
        forall p ensures Find(ts[..i + 1], p).Some? <==> Find(ts[..i], p).Some? || p == t.Path() {
          FindSnoc(ts[..i], t, p);
        }
        BootTask(t);
      }
      assert ts[..|ts|] == ts;
    }

    /** Start-up: register a mount for every entry and start the enabled tasks. */
    method Boot()
      requires Valid() && ValidConfig(config) && mounts == map[] && tasks.log == []
      modifies this`mounts, tasks
      ensures Inv() && Served() && OneAtATime(tasks.log)
      ensures forall p :: p in mounts <==>
        InMounts(config, p) || Configured(config, Key(AutoDjs, p)) || Configured(config, Key(Relays, p))
      ensures forall p :: p in mounts ==> fresh(mounts[p])
      ensures forall m :: m in config.mounts ==>
        m.path in mounts && NewForMount(mounts[m.path].view, m, config.limits)
      ensures forall t: Task :: t in Tasks(config, t.In()) ==>
        t.Path() in mounts && NewForTask(mounts[t.Path()].view, t, config.limits)
    {
      BootMounts();
      forall p ensures Configured(config, Key(AutoDjs, p)) ==> p !in mounts { OneSection(config, p); }
      BootTasks(AutoDjs);
      forall p ensures Configured(config, Key(Relays, p)) ==> p !in mounts { OneSection(config, p); }
      BootTasks(Relays);
      forall m | m in config.mounts
        ensures m.path in mounts && NewForMount(mounts[m.path].view, m, config.limits)
      {
        MountIsFound(config, m);
        assert View(m.path) == Some(MountSeed(m, config.limits));
      }
      forall t: Task | t in Tasks(config, t.In())
        ensures t.Path() in mounts && NewForTask(mounts[t.Path()].view, t, config.limits)
      {
        TaskIsFound(config, t);
        SeedsAreNew(MountConfig("", "", None, t.Meta(), None, None), t, config.limits);
        assert View(t.Path()) == Some(TaskSeed(t, config.limits));
      }
    }
  }

  function MountSeedAt(ms: seq<MountConfig>, limits: LimitsConfig, p: string): Option<MountView> {
    var m := FindMount(ms, p);
    if m.Some? then Some(MountSeed(m.value, limits)) else None
  }

  function TaskSeedAt(ts: seq<Task>, limits: LimitsConfig, p: string, was: Option<MountView>): Option<MountView> {
    var t := Find(ts, p);
    if t.Some? then Some(TaskSeed(t.value, limits)) else was
  }

  lemma TaskSeedNext(ts: seq<Task>, t: Task, limits: LimitsConfig, p: string, was: Option<MountView>)
    requires Find(ts, t.Path()).None?
    ensures TaskSeedAt(ts + [t], limits, p, was) ==
      if p == t.Path() then Some(TaskSeed(t, limits)) else TaskSeedAt(ts, limits, p, was)
  {
    FindSnoc(ts, t, p);
  }

  /** The tasks of the section run exactly as `ts` asks; the others are as before. */
  ghost predicate StartedFor(e: map<Key, Task>, e0: map<Key, Task>, ts: seq<Task>, s: Section) {
    forall k: Key :: if k.section == s then AgreesWith(e, ts, k) else Lookup(e, k) == Lookup(e0, k)
  }

  lemma NothingStarted(e: map<Key, Task>, ts: seq<Task>, s: Section)
    requires forall k :: k in e ==> k.section != s
    ensures StartedFor(e, e, ts[..0], s)
  {
  }

  lemma StartStep(e: map<Key, Task>, e0: map<Key, Task>, ts: seq<Task>, t: Task, s: Section)
    requires StartedFor(e, e0, ts, s) && Find(ts, t.Path()).None? && t.In() == s
    ensures StartedFor(if t.Enabled() then e[KeyOf(t) := t] else e, e0, ts + [t], s)
  {
    forall p { FindSnoc(ts, t, p); }
    assert AgreesWith(e, ts, KeyOf(t));
  }

  function RestartWarnings(c0: Config, c1: Config): seq<Warning> {
    (if c0.server.streamBind != c1.server.streamBind then [StreamBindChanged] else [])
    + (if c0.server.adminBind != c1.server.adminBind then [AdminBindChanged] else [])
    + (if c0.limits.ringSize != c1.limits.ringSize then [RingSizeChanged] else [])
  }
}
