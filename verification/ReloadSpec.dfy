/** One way to look at what configures a task: the AutoDJ and the relay passes of a
    reload differ only in which fields they compare and which codec they seed. */
module ReloadSpec {
  import opened Wrappers
  import opened Config

  datatype Section = AutoDjs | Relays
  datatype Key = Key(section: Section, path: string)
  datatype Codec = CodecMp3 | CodecVorbis

  datatype Task = AutoDj(dj: AutoDjConfig) | Relay(relay: RelayConfig) {
    function Path(): string { if AutoDj? then dj.mount else relay.mount }
    function In(): Section { if AutoDj? then AutoDjs else Relays }
    function Enabled(): bool { if AutoDj? then dj.enabled else relay.enabled }
    function Meta(): Metadata { if AutoDj? then dj.meta else relay.meta }
    function MaxListeners(): Option<u32> { if AutoDj? then dj.maxListeners else relay.maxListeners }
    function BurstSize(): Option<u32> { if AutoDj? then dj.burstSize else relay.burstSize }
    function SeedCodec(): Codec { if AutoDj? && dj.transcode.format.Vorbis? then CodecVorbis else CodecMp3 }
  }

  /** Equal in every field whose change needs the task restarted. */
  predicate SameRespawn(a: Task, b: Task) {
    match (a, b)
    case (AutoDj(x), AutoDj(y)) =>
      && x.enabled == y.enabled && x.folder == y.folder && x.loopPlaylist == y.loopPlaylist
      && x.order == y.order && x.transcode == y.transcode && x.burstSize == y.burstSize
    case (Relay(x), Relay(y)) =>
      && x.enabled == y.enabled && x.upstream == y.upstream && x.username == y.username
      && x.password == y.password && x.transcode == y.transcode && x.burstSize == y.burstSize
    case _ => false
  }

  /** That is every field but the path and the display fields. */
  lemma SameRespawnIff(a: Task, b: Task)
    ensures a.AutoDj? && b.AutoDj? ==>
      (SameRespawn(a, b) <==>
        a.dj.(mount := b.dj.mount, meta := b.dj.meta, maxListeners := b.dj.maxListeners) == b.dj)
    ensures a.Relay? && b.Relay? ==>
      (SameRespawn(a, b) <==>
        a.relay.(mount := b.relay.mount, meta := b.relay.meta, maxListeners := b.relay.maxListeners) == b.relay)
    ensures a.In() != b.In() ==> !SameRespawn(a, b)
  {
  }

  function Tasks(c: Config, s: Section): (ts: seq<Task>)
    ensures forall t :: t in ts ==> t.In() == s
  {
    if s.AutoDjs? then seq(|c.autodjs|, i requires 0 <= i < |c.autodjs| => AutoDj(c.autodjs[i]))
    else seq(|c.relays|, i requires 0 <= i < |c.relays| => Relay(c.relays[i]))
  }

  /** The first entry for a path. */
  function Find(ts: seq<Task>, p: string): (t: Option<Task>)
    ensures t.Some? ==> t.value in ts && t.value.Path() == p
  {
    if ts == [] then None else if ts[0].Path() == p then Some(ts[0]) else Find(ts[1..], p)
  }

  function FindMount(ms: seq<MountConfig>, p: string): (m: Option<MountConfig>)
    ensures m.Some? ==> m.value in ms && m.value.path == p
  {
    if ms == [] then None else if ms[0].path == p then Some(ms[0]) else FindMount(ms[1..], p)
  }

  /** Whether the path belongs to the section of the configuration. */
  predicate Configured(c: Config, k: Key) { Find(Tasks(c, k.section), k.path).Some? }

  predicate InMounts(c: Config, p: string) { FindMount(c.mounts, p).Some? }

  /** A path is in at most one section, and once in it. */
  ghost predicate DistinctTasks(ts: seq<Task>) {
    forall i, j :: 0 <= i < j < |ts| ==> ts[i].Path() != ts[j].Path()
  }

  ghost predicate DistinctMounts(ms: seq<MountConfig>) {
    forall i, j :: 0 <= i < j < |ms| ==> ms[i].path != ms[j].path
  }

  /** A new or changed entry: what the reload restarts. */
  predicate NeedsRespawn(was: seq<Task>, t: Task) {
    match Find(was, t.Path())
    case None => t.Enabled()
    case Some(o) => !SameRespawn(o, t)
  }

  predicate Removed(was: seq<Task>, ts: seq<Task>, p: string) { Find(was, p).Some? && Find(ts, p).None? }

  predicate RemovedMount(was: seq<MountConfig>, ms: seq<MountConfig>, p: string) {
    FindMount(was, p).Some? && FindMount(ms, p).None?
  }

  function Unless<V>(gone: bool, v: Option<V>): Option<V> { if gone then None else v }

  /** Entries of `ts` that a pass will start a task for. */
  predicate Starts(was: seq<Task>, t: Task) { NeedsRespawn(was, t) && t.Enabled() }

  function Other(s: Section): Section { if s.AutoDjs? then Relays else AutoDjs }

  function Lookup<K, V>(m: map<K, V>, p: K): Option<V> {
    if p in m then Some(m[p]) else None
  }

  // ── Running tasks ─────────────────────────────────────────────────────────

  datatype TaskEvent = Spawned(task: Task) | Cancelled(key: Key)

  function KeyOf(t: Task): Key { Key(t.In(), t.Path()) }

  function After(running: map<Key, Task>, e: TaskEvent): map<Key, Task> {
    match e
    case Spawned(t) => running[KeyOf(t) := t]
    case Cancelled(k) => running - {k}
  }

  /** The tasks running after the events in `log`. */
  function Running(log: seq<TaskEvent>): map<Key, Task> {
    if log == [] then map[] else After(Running(log[..|log| - 1]), log[|log| - 1])
  }

  /** No task was ever started for an entry whose task was still running: none
      became unreachable for a later cancel. */
  predicate NoLeak(log: seq<TaskEvent>) {
    log == [] || (
      && NoLeak(log[..|log| - 1])
      && (log[|log| - 1].Spawned? ==> KeyOf(log[|log| - 1].task) !in Running(log[..|log| - 1])))
  }

  predicate FreePath(running: map<Key, Task>, p: string) {
    Key(AutoDjs, p) !in running && Key(Relays, p) !in running
  }

  /** At every moment each path had at most one AutoDJ or relay task. */
  predicate OneAtATime(log: seq<TaskEvent>) {
    log == [] || (
      && OneAtATime(log[..|log| - 1])
      && (log[|log| - 1].Spawned? ==> FreePath(Running(log[..|log| - 1]), log[|log| - 1].task.Path())))
  }

  /** The entry `k` runs exactly when the configuration has it enabled, and then
      agrees with it on every field that needs a respawn. */
  predicate AgreesAt(running: map<Key, Task>, c: Config, k: Key) {
    AgreesWith(running, Tasks(c, k.section), k)
  }

  predicate AgreesWith(running: map<Key, Task>, ts: seq<Task>, k: Key) {
    match Find(ts, k.path)
    case None => k !in running
    case Some(t) => if t.Enabled() then k in running && SameRespawn(running[k], t) else k !in running
  }

  ghost predicate TasksAgree(running: map<Key, Task>, c: Config) {
    forall k: Key :: AgreesAt(running, c, k)
  }

  // ── The mount at one path, through the passes of a reload ─────────────────

  /** What a registered mount carries besides its path: the swappable fields and
      the burst capacity of the bus it was created with. */
  datatype MountView = MountView(
    codec: Codec, sourcePassword: string, maxListeners: Option<u32>, meta: Metadata, burst: u32)

  function MountSeed(m: MountConfig, limits: LimitsConfig): MountView {
    MountView(CodecMp3, m.sourcePassword, m.maxListeners, m.meta, m.burstSize.GetOr(limits.burstSize))
  }

  function TaskSeed(t: Task, limits: LimitsConfig): MountView {
    MountView(t.SeedCodec(), "", t.MaxListeners(), t.Meta(), t.BurstSize().GetOr(limits.burstSize))
  }

  function MountUpdated(m: MountConfig, v: MountView): MountView {
    v.(sourcePassword := m.sourcePassword, maxListeners := m.maxListeners, meta := m.meta)
  }

  function TaskUpdated(t: Task, v: MountView): MountView {
    v.(maxListeners := t.MaxListeners(), meta := t.Meta())
  }

  function AfterMountUpdates(ms: seq<MountConfig>, limits: LimitsConfig, p: string, v: Option<MountView>):
    Option<MountView>
  {
    match FindMount(ms, p)
    case None => v
    case Some(m) => Some(if v.Some? then MountUpdated(m, v.value) else MountSeed(m, limits))
  }

  function AfterTaskUpdates(was: seq<Task>, ts: seq<Task>, limits: LimitsConfig, p: string, v: Option<MountView>):
    Option<MountView>
  {
    match Find(ts, p)
    case None => v
    case Some(t) =>
      if NeedsRespawn(was, t) then Some(v.GetOr(TaskSeed(t, limits)))
      else if v.Some? then Some(TaskUpdated(t, v.value)) else None
  }

  /** A path of the section that the new configuration no longer has there. */
  predicate DroppedTask(c0: Config, c1: Config, k: Key) {
    Removed(Tasks(c0, k.section), Tasks(c1, k.section), k.path)
  }

  predicate DroppedMount(c0: Config, c1: Config, p: string) { RemovedMount(c0.mounts, c1.mounts, p) }

  predicate DroppedAsTask(c0: Config, c1: Config, p: string) {
    DroppedTask(c0, c1, Key(AutoDjs, p)) || DroppedTask(c0, c1, Key(Relays, p))
  }

  /** Whether the reload removes what was registered at `p`, even if it registers
      something there again. */
  predicate Dropped(c0: Config, c1: Config, p: string) {
    DroppedMount(c0, c1, p) || DroppedAsTask(c0, c1, p)
  }

  function AfterMountPass(c0: Config, c1: Config, p: string, v: Option<MountView>): Option<MountView> {
    Unless(DroppedMount(c0, c1, p), AfterMountUpdates(c1.mounts, c1.limits, p, v))
  }

  function AfterTaskPass(c0: Config, c1: Config, k: Key, v: Option<MountView>): Option<MountView> {
    AfterTaskUpdates(
      Tasks(c0, k.section), Tasks(c1, k.section), c1.limits, k.path, Unless(DroppedTask(c0, c1, k), v))
  }

  function AfterTaskPasses(c0: Config, c1: Config, p: string, v: Option<MountView>): Option<MountView> {
    AfterTaskPass(c0, c1, Key(Relays, p), AfterTaskPass(c0, c1, Key(AutoDjs, p), v))
  }

  /** The mount at `p` after the whole reload, given what was there before. */
  function Reloaded(c0: Config, c1: Config, p: string, v: Option<MountView>): Option<MountView> {
    AfterTaskPasses(c0, c1, p, AfterMountPass(c0, c1, p, v))
  }

  predicate EnabledAt(c: Config, k: Key) {
    var t := Find(Tasks(c, k.section), k.path);
    t.Some? && t.value.Enabled()
  }

  /** A path the configuration needs a mount for. */
  predicate Required(c: Config, p: string) {
    InMounts(c, p) || EnabledAt(c, Key(AutoDjs, p)) || EnabledAt(c, Key(Relays, p))
  }

  /** The task for `k` after an update pass. */
  function TaskAfter(was: seq<Task>, ts: seq<Task>, k: Key, before: Option<Task>): Option<Task> {
    match Find(ts, k.path)
    case None => before
    case Some(t) =>
      if t.In() != k.section || !NeedsRespawn(was, t) then before else if t.Enabled() then Some(t) else None
  }
}
