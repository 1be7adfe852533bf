/** The section writers in place, and the save pipeline over any run of saves. */
module ConfigStore {
  import opened Wrappers
  import opened Config
  import opened ConfigDoc
  import opened ConfigSave

  /** The parsed file while a save edits it. Its methods answer false where the
      writer would panic on a section that is not the kind of table it expects. */
  class Document {
    var root: Table

    constructor (t: Table)
      ensures root == t
    {
      root := t;
    }

    method EnsureTable(k: Key)
      modifies this
      ensures root == old(root)[k := Ensured(old(root), k)]
    {
      if k !in root {
        root := root[k := Sub(map[], false)];
      } else {
        assert root == root[k := root[k]];
      }
    }

    /** `section[key] = value` */
    method Set(section: Key, k: Key, v: Item) returns (ok: bool)
      requires section in root
      modifies this
      ensures ok <==> SetIn(old(root)[section], k, v).Some?
      ensures root == if ok then old(root)[section := SetIn(old(root)[section], k, v).value] else old(root)
    {
      match root[section]
      case Sub(entries, inline) =>
        root := root[section := Sub(entries[k := v], inline)];
        ok := true;
      case _ => ok := false;
    }

    method ApplyServerTable(s: ServerSub) returns (ok: bool)
      modifies this
      ensures var x := PatchServerTable(Ensured(old(root), Server), s);
        ok == x.Some? && (ok ==> root == old(root)[Server := x.value])
    {
      EnsureTable(Server);
      ok := Set(Server, StreamBind, Str(s.server.streamBind));
      if ok { ok := Set(Server, AdminBind, Str(s.server.adminBind)); }
      if ok { ok := Set(Server, Hostname, Str(s.server.hostname)); }
    }

    method ApplyLogging(s: ServerSub) returns (ok: bool)
      modifies this
      ensures var x := PatchLogging(Ensured(old(root), Logging), s);
        ok == x.Some? && (ok ==> root == old(root)[Logging := x.value])
    {
      EnsureTable(Logging);
      ok := Set(Logging, Level, Str(s.level));
      if ok { ok := Set(Logging, Format, Str(s.format)); }
    }

    method RemoveCap()
      requires Limits in root
      modifies this
      ensures root == old(root)[Limits := RemoveIn(old(root)[Limits], SourceMaxKbps)]
    {
      var x := root[Limits];
      if x.Sub? && !x.inline {
        root := root[Limits := x.(entries := x.entries - {SourceMaxKbps})];
      } else {
        assert root == root[Limits := x];
      }
    }

    method ApplyLimits(s: ServerSub) returns (ok: bool)
      modifies this
      ensures var x := PatchLimits(Ensured(old(root), Limits), s);
        ok == x.Some? && (ok ==> root == old(root)[Limits := x.value])
    {
      hide Saturated, RemoveIn;
      EnsureTable(Limits);
      ok := Set(Limits, MaxListenersGlobal, Int(s.maxListenersGlobal));
      if ok { ok := Set(Limits, RingSize, Int(Saturated(s.ringSize))); }
      if ok { ok := Set(Limits, SlowListenerGraceS, Int(Saturated(s.slowListenerGraceS))); }
      if ok { ok := Set(Limits, BurstSize, Int(s.burstSize)); }
      if ok {
        match s.sourceMaxKbps
        case Some(n) => ok := Set(Limits, SourceMaxKbps, Int(n));
        case None => RemoveCap();
      }
    }

    method ApplySections(s: ServerSub) returns (ok: bool)
      modifies this
      ensures var d := PatchSections(old(root), s); ok == d.Some? && (ok ==> root == d.value)
    {
      ok := ApplyServerTable(s);
      if ok { ok := ApplyLogging(s); }
      if ok { ok := ApplyLimits(s); }
    }

    /** `apply_server_patch` */
    method ApplyServer(s: ServerSub) returns (ok: bool)
      modifies this
      ensures var d := PatchServer(old(root), s); ok == d.Some? && (ok ==> root == d.value)
    {
      ok := ApplySections(s);
      if ok && s.sourcePassword.Some? {
        EnsureTable(Auth);
        ok := Set(Auth, SourcePassword, Str(s.sourcePassword.value));
      }
    }

    /** `apply_transcode_patch` */
    method ApplyTranscode(t: Option<TranscodeSub>) returns (ok: bool)
      modifies this
      ensures var d := PatchTranscode(old(root), t); ok == d.Some? && (ok ==> root == d.value)
    {
      match t
      case None =>
        root := root - {Transcode};
        ok := true;
      case Some(sub) =>
        EnsureTable(Transcode);
        ok := Set(Transcode, Format, Str(sub.format));
        if ok { ok := Set(Transcode, SampleRate, Int(sub.sampleRate)); }
        if ok { ok := Set(Transcode, BitrateKbps, Int(sub.bitrateKbps)); }
    }

    /** `apply_mounts_patch` */
    method ApplyMounts(ms: seq<MountSub>)
      modifies this
      ensures root == PatchList(old(root), Mounts, Map(ms, MountEntry))
    {
      if ms == [] {
        root := root - {Mounts};
        return;
      }
      var aot: seq<Table> := [];
      for i := 0 to |ms|
        invariant aot == Map(ms[..i], MountEntry) && root == old(root)
      {
        aot := aot + [MountEntry(ms[i])];
      }
      assert ms[..|ms|] == ms;
      root := root[Mounts := Tables(aot)];
    }

    /** `apply_users_patch` */
    method ApplyUsers(us: seq<UserSub>) returns (ok: bool)
      modifies this
      ensures var d := PatchUsers(old(root), us); ok == d.Some? && (ok ==> root == d.value)
    {
      EnsureTable(Auth);
      var auth := root[Auth];
      if !auth.Sub? || auth.inline { return false; }
      if us == [] {
        root := root[Auth := auth.(entries := auth.entries - {Users})];
        return true;
      }
      var aot: seq<Table> := [];
      for i := 0 to |us|
        invariant aot == Map(us[..i], UserEntry) && root == old(root)[Auth := auth]
      {
        aot := aot + [UserEntry(us[i])];
      }
      assert us[..|us|] == us;
      root := root[Auth := auth.(entries := auth.entries[Users := Tables(aot)])];
      ok := true;
    }

    /** `apply_autodjs_patch` */
    method ApplyAutoDjs(djs: seq<AutoDjSub>)
      modifies this
      ensures root == PatchList(old(root), AutoDjs, Map(djs, AutoDjEntry))
    {
      if djs == [] {
        root := root - {AutoDjs};
        return;
      }
      var aot: seq<Table> := [];
      for i := 0 to |djs|
        invariant aot == Map(djs[..i], AutoDjEntry) && root == old(root)
      {
        aot := aot + [AutoDjEntry(djs[i])];
      }
      assert djs[..|djs|] == djs;
      root := root[AutoDjs := Tables(aot)];
    }

    /** `apply_relays_patch` */
    method ApplyRelays(rs: seq<RelaySub>)
      modifies this
      ensures root == PatchList(old(root), Relays, Map(rs, RelayEntry))
    {
      if rs == [] {
        root := root - {Relays};
        return;
      }
      var aot: seq<Table> := [];
      for i := 0 to |rs|
        invariant aot == Map(rs[..i], RelayEntry) && root == old(root)
      {
        aot := aot + [RelayEntry(rs[i])];
      }
      assert rs[..|rs|] == rs;
      root := root[Relays := Tables(aot)];
    }

    method Apply(p: Patch) returns (ok: bool)
      modifies this
      ensures var d := Patched(old(root), p); ok == d.Some? && (ok ==> root == d.value)
    {
      ok := true;
      match p
      case ServerPatch(s) => ok := ApplyServer(s);
      case TranscodePatch(t) => ok := ApplyTranscode(t);
      case MountsPatch(ms) => ApplyMounts(ms);
      case UsersPatch(us) => ok := ApplyUsers(us);
      case AutoDjsPatch(djs) => ApplyAutoDjs(djs);
      case RelaysPatch(rs) => ApplyRelays(rs);
    }
  }

  // ── The save pipeline, over configurations ────────────────────────────────

  /** One step of the server's life as far as the file is concerned. */
  datatype Event =
    | Put(patch: Patch, writeOk: bool, applyOk: bool)
    | Removed
    | Edited(doc: Table)
    | Sighup(applyOk: bool)

  /** Whether the server knows a path for its file, what the file there says, and the
      running configuration. */
  datatype World = World(known: bool, file: Option<FileState>, config: Config)

  /** What a save patches: the file it reads, or a serialization of the candidate. */
  function Base(w: World, candidate: Config): Option<FileState> {
    if w.known && w.file.Some? then w.file
    else if InRange(candidate) then Some(FileState(candidate, false, false)) else None
  }

  /** Whether a save gets as far as writing a file. */
  predicate Writes(w: World, p: Patch, writeOk: bool) {
    var base := Base(w, Overlay(w.config, p));
    base.Some? && !(p.UsersPatch? && base.value.inlineAuth) && writeOk
  }

  /** The file that is written says this. */
  function Written(w: World, p: Patch): FileState
    requires Base(w, Overlay(w.config, p)).Some?
  {
    var base := Base(w, Overlay(w.config, p)).value;
    base.(says := Overlay(base.says, Expressed(base, p)))
  }

  /** `watched` is whether the server was started from the file. */
  ghost function After(w: World, watched: bool, e: Event): World {
    match e
    case Put(p, writeOk, applyOk) =>
      if !Writes(w, p, writeOk) then w
      else if applyOk then World(true, Some(Written(w, p)), Overlay(w.config, p))
      else w.(file := Some(Written(w, p)))
    case Removed => w.(file := None)
    case Edited(doc) => w.(file := Shape(doc))
    case Sighup(applyOk) =>
      if watched && w.file.Some? && ValidConfig(w.file.value.says) && applyOk
      then w.(config := w.file.value.says) else w
  }

  ghost function RunFrom(w: World, watched: bool, run: seq<Event>): World {
    if run == [] then w else After(RunFrom(w, watched, run[..|run| - 1]), watched, run[|run| - 1])
  }

  /** What a section validator let through, and files that can be read. */
  ghost predicate Sane(e: Event) { (e.Put? ==> WellTyped(e.patch)) && (e.Edited? ==> Parse(e.doc).Some?) }

  // ── The save pipeline, over documents ─────────────────────────────────────

  datatype Outcome = Saved | NotWritten | WrittenNotApplied

  class ConfigFile {
    const watched: bool
    /** Whether there is a path to read the file from; it is only set by a save whose
        apply succeeds. */
    var known: bool
    /** The file's content, once there is a file. */
    var disk: Option<Table>
    /** The running configuration. */
    var config: Config

    constructor (fromFile: bool, d: Option<Table>, c: Config)
      ensures watched == known == fromFile && disk == d && config == c
    {
      watched, known, disk, config := fromFile, fromFile, d, c;
    }

    ghost predicate Valid()
      reads this
    {
      disk.Some? ==> Parse(disk.value).Some?
    }

    ghost function Abstract(): World
      reads this
    {
      World(known, if disk.Some? then Shape(disk.value) else None, config)
    }

    /** `persist_and_apply` */
    method PersistAndApply(p: Patch, writeOk: bool, applyOk: bool) returns (r: Outcome)
      modifies this
      ensures var candidate := Overlay(old(config), p);
        var w := ToWrite(if old(known) then old(disk) else None, candidate, p);
        && (r.NotWritten? <==> w.None? || !writeOk)
        && (r.NotWritten? ==> disk == old(disk) && config == old(config) && known == old(known))
        && (!r.NotWritten? ==> disk == w)
        && (r.Saved? ==> applyOk && config == candidate && known)
        && (r.WrittenNotApplied? ==> !applyOk && config == old(config) && known == old(known))
    {
      var candidate := Overlay(config, p);
      var start := if known && disk.Some? then disk else Serialize(candidate);
      if start.None? { return NotWritten; }
      var doc := new Document(start.value);
      var ok := doc.Apply(p);
      if !ok || !writeOk { return NotWritten; }
      disk := Some(doc.root);
      if !applyOk { return WrittenNotApplied; }
      known := true;
      config := candidate;
      return Saved;
    }

    /** A reload from disk: anything wrong with the file keeps the running configuration. */
    method ReloadFromDisk(applyOk: bool)
      modifies this`config
      ensures config ==
        if watched && disk.Some? && Parse(disk.value).Some? && ValidConfig(Parse(disk.value).value) && applyOk
        then Parse(disk.value).value else old(config)
    {
      if !watched || disk.None? { return; }
      var parsed := Parse(disk.value);
      if parsed.None? { return; }
      var valid := ValidatePaths(parsed.value);
      if valid && applyOk { config := parsed.value; }
    }

    method Step(e: Event)
      requires Valid() && Sane(e)
      modifies this
      ensures Valid() && Abstract() == After(old(Abstract()), watched, e)
    {
      hide Parse, Overlay, WellTyped, Expressed;
      if disk.Some? { ParsedHasTables(disk.value); }
      match e
      case Put(p, writeOk, applyOk) =>
        WrittenSays(if known then disk else None, Overlay(config, p), p);
        var r := PersistAndApply(p, writeOk, applyOk);
        if disk.Some? { ShapeParses(disk.value); }
      case Removed => disk := None;
      case Edited(doc) => disk := Some(doc);
      case Sighup(applyOk) => ReloadFromDisk(applyOk);
    }
  }

  /** What a save writes says the patch it can express, over what it is based on. */
  lemma WrittenSays(disk: Option<Table>, candidate: Config, p: Patch)
    requires (disk.Some? ==> Shape(disk.value).Some?) && WellTyped(p)
    ensures var w := ToWrite(disk, candidate, p);
      var base := if disk.Some? then Shape(disk.value)
        else if InRange(candidate) then Some(FileState(candidate, false, false)) else None;
      && (w.Some? <==> base.Some? && !(p.UsersPatch? && base.value.inlineAuth))
      && (w.Some? ==> Shape(w.value) == Some(base.value.(says := Overlay(base.value.says, Expressed(base.value, p)))))
  {
    hide Parse, Overlay, WellTyped, Expressed, Patched;
    if disk.Some? {
      PatchedSays(disk.value, Shape(disk.value).value, p);
    } else if InRange(candidate) {
      ParseInvertsSerialize(candidate);
      ParsedHasTables(Serialize(candidate).value);
      PatchedSays(Serialize(candidate).value, FileState(candidate, false, false), p);
    }
  }

  /** Any run of saves, hand edits, removals of the file and reloads from it, one at a
      time: file, path and running configuration are what the run over configurations
      gives, whatever tables the file has inline. */
  method Live(file: ConfigFile, run: seq<Event>)
    requires file.Valid() && forall e :: e in run ==> Sane(e)
    modifies file
    ensures file.Valid() && file.Abstract() == RunFrom(old(file.Abstract()), file.watched, run)
  {
    for i := 0 to |run|
      invariant file.Valid() && file.Abstract() == RunFrom(old(file.Abstract()), file.watched, run[..i])
    {
      assert run[..i + 1][..i] == run[..i];
      file.Step(run[i]);
    }
    assert run[..|run|] == run;
  }

  // ── In step ───────────────────────────────────────────────────────────────

  /** The file the server would read says what is running. */
  predicate Agrees(w: World) { w.known && w.file.Some? ==> w.file.value.says == w.config }

  /** The file has a form that can say all of the patch. */
  predicate CanSay(f: FileState, p: Patch) {
    p.ServerPatch? ==>
      Fits(p.server) && !(f.inlineLimits && f.says.limits.sourceMaxKbps.Some? && p.server.sourceMaxKbps.None?)
  }

  /** What keeps file and server in step, event by event. */
  predicate KeepsStep(w: World, e: Event) {
    match e
    case Put(p, writeOk, applyOk) =>
      !Writes(w, p, writeOk)
      || (if applyOk then CanSay(Base(w, Overlay(w.config, p)).value, p)
          else !w.known || Written(w, p).says == w.config)
    case Removed => true
    case Edited(doc) => w.known && Shape(doc).Some? ==> Shape(doc).value.says == w.config
    case Sighup(applyOk) => true
  }

  lemma SaysAllIff(f: FileState, c: Config, p: Patch)
    ensures Overlay(f.says, Expressed(f, p)) == Overlay(f.says, p) <==> CanSay(f, p)
    ensures Overlay(Overlay(c, p), p) == Overlay(c, p)
  {
  }

  /** In step before, in step after: exactly when the event keeps step. */
  lemma InStepIff(w: World, watched: bool, e: Event)
    requires Agrees(w)
    ensures Agrees(After(w, watched, e)) <==> KeepsStep(w, e)
  {
    if e.Put? && Writes(w, e.patch, e.writeOk) {
      var base := Base(w, Overlay(w.config, e.patch)).value;
      SaysAllIff(base, w.config, e.patch);
    }
  }

  /** A reload from a file the server accepts brings the two together. */
  lemma ReloadAgrees(w: World)
    requires w.file.Some? && ValidConfig(w.file.value.says)
    ensures Agrees(After(w, true, Sighup(true)))
  {
  }

  /** In step, with values the file can hold and no table of it inline. */
  predicate Plain(w: World) {
    && Agrees(w) && InRange(w.config)
    && (w.known && w.file.Some? ==> !w.file.value.inlineLimits && !w.file.value.inlineAuth)
  }

  lemma OverlayInRange(c: Config, p: Patch)
    requires InRange(c) && PatchInRange(p)
    ensures InRange(Overlay(c, p)) && (p.ServerPatch? ==> Overlay(c, p).limits.sourceMaxKbps == p.server.sourceMaxKbps)
  {
  }

  /** A save the server refuses, and then one it accepts. Without a path the first leaves
      no trace, since the next one serializes again; with one its patch stays in the file. */
  lemma RefusedThenSaved(w: World, watched: bool, p: Patch, q: Patch)
    requires Plain(w) && PatchInRange(p) && PatchInRange(q)
    ensures var v := After(After(w, watched, Put(p, true, false)), watched, Put(q, true, true));
      && v.known && v.file.Some? && v.config == Overlay(w.config, q)
      && v.file.value.says == if w.known then Overlay(Overlay(w.config, p), q) else v.config
  {
    hide Overlay, Expressed;
    var u := After(w, watched, Put(p, true, false));
    OverlayInRange(w.config, p);
    OverlayInRange(w.config, q);
    SaysAllIff(Base(w, Overlay(w.config, p)).value, w.config, p);
    SaysAllIff(Base(u, Overlay(w.config, q)).value, w.config, q);
  }

  /** Saves with values the file can hold, whose candidate the server accepts. */
  predicate Clean(e: Event) {
    match e
    case Put(p, writeOk, applyOk) => PatchInRange(p) && (writeOk ==> applyOk)
    case Edited(_) => false
    case _ => true
  }

  /** The configuration that the written patches of a run lead to. */
  function ConfigAfter(c: Config, run: seq<Event>): Config {
    if run == [] then c
    else
      var before := ConfigAfter(c, run[..|run| - 1]);
      match run[|run| - 1]
      case Put(p, writeOk, _) => if writeOk then Overlay(before, p) else before
      case _ => before
  }

  lemma CleanStep(w: World, watched: bool, e: Event)
    requires Plain(w) && Clean(e) && (watched ==> w.known)
    ensures var v := After(w, watched, e);
      Plain(v) && (watched ==> v.known)
      && v.config == if e.Put? && e.writeOk then Overlay(w.config, e.patch) else w.config
  {
    InStepIff(w, watched, e);
  }

  /** Clean saves only: the server runs all written patches, and so says the file. */
  lemma {:induction false} CleanRun(w: World, watched: bool, run: seq<Event>)
    requires Plain(w) && (watched ==> w.known) && forall e :: e in run ==> Clean(e)
    ensures var v := RunFrom(w, watched, run);
      Plain(v) && (watched ==> v.known) && v.config == ConfigAfter(w.config, run)
  {
    if run != [] {
      CleanRun(w, watched, run[..|run| - 1]);
      CleanStep(RunFrom(w, watched, run[..|run| - 1]), watched, run[|run| - 1]);
    }
  }
}
