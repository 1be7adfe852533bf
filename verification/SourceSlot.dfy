/** The per-mount source slot, shared by any number of live sources and one
    AutoDJ or Relay task. Every atomic store, load, compare-exchange and lock
    section of the four source files is one step of this machine; `Notify` is a
    single stored permit. Runs are arbitrary interleavings of the steps. */
module SourceSlot {
  import opened Wrappers

  datatype Kind = NoKind | Live | AutoDj | Relay

  // Program counters: the constructor names what the task does next.

  datatype Arrival =
    | LLoadConnected | LLoadKind | LStorePreempt | LReadToken | LCancel(victim: Option<nat>) | LPoll | LAuth | LClaim
  datatype Tenure = LSetCancel | LSetConnectedAt | LSetOverlay | LRunning | LFree
  datatype TearDown = LClearCancel | LClearConnectedAt | LClearOverlay | LClearHeader | LNotify

  /** One live-source connection: before its compare-exchange, on the slot,
      inside the disconnect guard after the slot is free, over. */
  datatype LivePc = Arriving(a: Arrival) | Serving(t: Tenure) | Leaving(d: TearDown) | Gone

  datatype Wait = NTop | NLoad | NLoadKind | NWaitLoad | NWaitBlocked | NWaitDone | NPrepare | NIdle | NClaim
  datatype Pass =
    | NSetKind | NSetConnectedAt | NSetCancel | NReadToken | NRunning
    | NClearCancel | NClearConnectedAt | NClearOverlay | NClearHeader | NClearKind | NFree | NPanicked
  datatype Aftermath = NOutcome | NSwap | NParked | NExited

  /** The AutoDJ or Relay task: on its way to the slot, on it, after a pass. */
  datatype NonLivePc = Trying(w: Wait) | Playing(p: Pass) | After(e: Aftermath)

  datatype LiveTask = LiveTask(pc: LivePc, token: nat)

  /** `cancelled` is the pass outcome the task carries through `release_slot`. */
  datatype NonLiveTask = NonLiveTask(pc: NonLivePc, token: nat, cancelled: bool)

  /** The slot fields of one `ActiveMount`; optional values that only matter as
      present or absent are booleans. `permit` is the stored `Notify` permit. */
  datatype Mount = Mount(
    connected: bool,
    kind: Kind,
    cancel: Option<nat>,
    connectedAt: bool,
    overlay: bool,
    header: bool,
    preemptPending: bool,
    permit: bool)

  /** Cancellation tokens are numbered in creation order. */
  datatype Tokens = Tokens(next: nat, cancelled: set<nat>)

  datatype State = State(
    mount: Mount,
    tokens: Tokens,
    live: map<nat, LiveTask>,
    nonlive: NonLiveTask,
    flavour: Kind,
    shutdown: bool)

  /** `choice` resolves what the task cannot decide itself: password verdict,
      time-outs, playlist scan results, end of stream. */
  datatype Step =
    | Connect(id: nat, existing: bool)
    | LiveStep(id: nat, choice: bool)
    | LiveHeader(id: nat)
    | NonLiveStep(choice: bool)
    | NonLiveHeader
    | Kick
    | Shutdown
    | Respawn

  function Init(flavour: Kind): State {
    State(Mount(false, NoKind, None, false, false, false, false, false), Tokens(0, {}),
          map[], NonLiveTask(Trying(NTop), 0, false), flavour, false)
  }

  // ── Who holds, who owes ───────────────────────────────────────────────────

  /** What a task is responsible for. `Holding` lasts from the successful
      compare-exchange to the store that frees the slot. `Owing` (live only)
      lasts until the guard's `notify_one`. The others last from the store that
      may set the field to the task's own store that clears it. */
  datatype Role = Holding | Owing | OwnsCancel | OwnsConnectedAt | OwnsOverlay | OwnsHeader

  predicate LiveIs(role: Role, pc: LivePc) {
    match pc
    case Arriving(_) => false
    case Serving(t) =>
      match role {
        case OwnsCancel => t != LSetCancel
        case OwnsConnectedAt => t != LSetCancel && t != LSetConnectedAt
        case OwnsOverlay => t == LRunning || t == LFree
        case OwnsHeader => t == LRunning || t == LFree
        case _ => true
      }
    case Leaving(d) =>
      match role {
        case Holding => false
        case Owing => true
        case OwnsCancel => d == LClearCancel
        case OwnsConnectedAt => d == LClearCancel || d == LClearConnectedAt
        case OwnsOverlay => d == LClearCancel || d == LClearConnectedAt || d == LClearOverlay
        case OwnsHeader => d != LNotify
      }
    case Gone => false
  }

  predicate PassIs(role: Role, p: Pass) {
    match role
    case Holding => true
    case Owing => false
    case OwnsCancel => p == NReadToken || p == NRunning || p == NClearCancel
    case OwnsConnectedAt =>
      || p == NSetCancel || p == NReadToken || p == NRunning || p == NClearCancel || p == NClearConnectedAt
      || p == NPanicked
    case OwnsOverlay => false
    case OwnsHeader =>
      p == NRunning || p == NClearCancel || p == NClearConnectedAt || p == NClearOverlay || p == NClearHeader
  }

  predicate NonLiveIs(role: Role, pc: NonLivePc) {
    pc.Playing? && PassIs(role, pc.p)
  }

  /** The AutoDJ or Relay holds the slot and its kind tag is up. */
  predicate Tagged(pc: NonLivePc) {
    pc.Playing? && pc.p != NSetKind && pc.p != NFree
  }

  // ── The steps ─────────────────────────────────────────────────────────────

  predicate NonLiveEnabled(s: State) {
    match s.nonlive.pc
    case Trying(w) => w == NWaitBlocked ==> s.mount.permit || s.shutdown
    case Playing(p) => p != NPanicked
    case After(e) =>
      match e {
        case NParked => s.mount.permit || (s.flavour == Relay && s.shutdown)
        case NExited => false
        case _ => true
      }
  }

  predicate Enabled(s: State, step: Step) {
    match step
    case Connect(id, _) => id !in s.live
    case LiveStep(id, _) => id in s.live && !s.live[id].pc.Gone?
    case LiveHeader(id) => id in s.live && s.live[id].pc == Serving(LRunning)
    case NonLiveStep(_) => NonLiveEnabled(s)
    case NonLiveHeader => s.nonlive.pc == Playing(NRunning)
    case Kick => s.mount.cancel.Some?
    case Shutdown => true
    case Respawn => s.nonlive.pc == After(NExited)
  }

  /** Where a live source goes next. */
  function LiveGoto(m: Mount, pc: LivePc, choice: bool): LivePc {
    match pc
    case Arriving(a) => ArrivalGoto(m, a, choice)
    case Serving(t) => if t == LFree then Leaving(LClearCancel) else Serving(TenureGoto(t))
    case Leaving(d) => if d == LNotify then Gone else Leaving(TearDownGoto(d))
    case Gone => Gone
  }

  function ArrivalGoto(m: Mount, a: Arrival, choice: bool): LivePc {
    match a
    case LLoadConnected => Arriving(if m.connected then LLoadKind else LAuth)
    case LLoadKind => Arriving(if m.kind == NoKind || m.kind == Live then LAuth else LStorePreempt)
    case LStorePreempt => Arriving(LReadToken)
    case LReadToken => Arriving(LCancel(m.cancel))
    case LCancel(_) => Arriving(LPoll)
    case LPoll => if !m.connected then Arriving(LAuth) else if choice then Gone else Arriving(LPoll)
    case LAuth => if choice then Arriving(LClaim) else Gone
    case LClaim => if m.connected then Gone else Serving(LSetCancel)
  }

  function TenureGoto(t: Tenure): Tenure {
    match t
    case LSetCancel => LSetConnectedAt
    case LSetConnectedAt => LSetOverlay
    case LSetOverlay => LRunning
    case LRunning => LFree
    case LFree => LFree
  }

  function TearDownGoto(d: TearDown): TearDown {
    match d
    case LClearCancel => LClearConnectedAt
    case LClearConnectedAt => LClearOverlay
    case LClearOverlay => LClearHeader
    case LClearHeader => LNotify
    case LNotify => LNotify
  }

  /** What that step stores on the mount. */
  function LiveStore(m: Mount, t: LiveTask): Mount {
    match t.pc
    case Arriving(a) =>
      if a == LStorePreempt then m.(preemptPending := true) else if a == LClaim then m.(connected := true) else m
    case Serving(at) => TenureStore(m, at, t.token)
    case Leaving(d) => TearDownStore(m, d)
    case Gone => m
  }

  function TenureStore(m: Mount, t: Tenure, token: nat): Mount {
    match t
    case LSetCancel => m.(cancel := Some(token))
    case LSetConnectedAt => m.(connectedAt := true)
    case LSetOverlay => m.(overlay := true)
    case LRunning => m
    case LFree => m.(connected := false)
  }

  function TearDownStore(m: Mount, d: TearDown): Mount {
    match d
    case LClearCancel => m.(cancel := None)
    case LClearConnectedAt => m.(connectedAt := false)
    case LClearOverlay => m.(overlay := false)
    case LClearHeader => m.(header := false)
    case LNotify => m.(permit := true)
  }

  /** A successful claim takes a fresh token; preemption cancels its victim's. */
  function LiveTokens(m: Mount, k: Tokens, pc: LivePc): Tokens {
    if pc == Arriving(LClaim) && !m.connected then k.(next := k.next + 1)
    else if pc.Arriving? && pc.a.LCancel? && pc.a.victim.Some? then k.(cancelled := k.cancelled + {pc.a.victim.value})
    else k
  }

  /** Where the AutoDJ or Relay task goes next; `stop` is its shutdown token. */
  function NonLiveGoto(m: Mount, t: NonLiveTask, flavour: Kind, stop: bool, choice: bool): NonLivePc {
    match t.pc
    case Trying(w) => WaitGoto(m, w, flavour, stop, choice)
    case Playing(p) => PassGoto(m, p, flavour)
    case After(e) => AftermathGoto(m, e, t.cancelled, flavour, stop, choice)
  }

  function WaitGoto(m: Mount, w: Wait, flavour: Kind, stop: bool, choice: bool): NonLivePc {
    match w
    case NTop => if stop then After(NExited) else Trying(NLoad)
    case NLoad => Trying(if !m.connected then NPrepare else if flavour == Relay then NLoadKind else NWaitLoad)
    case NLoadKind => Trying(if m.kind != Relay then NWaitLoad else NPrepare)
    case NWaitLoad => Trying(if m.connected then NWaitBlocked else NWaitDone)
    case NWaitBlocked => Trying(if stop then NWaitDone else NWaitLoad)
    case NWaitDone => if stop then After(NExited) else Trying(NPrepare)
    // AutoDJ only: an empty folder idles and loops, a failed scan ends the task.
    case NPrepare => Trying(if flavour == Relay || choice then NClaim else NIdle)
    case NIdle => if choice then Trying(NTop) else After(NExited)
    case NClaim => if m.connected then Trying(NTop) else Playing(NSetKind)
  }

  function PassGoto(m: Mount, p: Pass, flavour: Kind): NonLivePc {
    match p
    case NSetKind => Playing(NSetConnectedAt)
    case NSetConnectedAt => Playing(NSetCancel)
    case NSetCancel => Playing(NReadToken)
    // The AutoDJ gives up its pass when the token is gone; the relay's `expect` panics.
    case NReadToken =>
      Playing(if m.cancel.Some? then NRunning else if flavour == Relay then NPanicked else NClearCancel)
    case NRunning => Playing(NClearCancel)
    case NClearCancel => Playing(NClearConnectedAt)
    case NClearConnectedAt => Playing(NClearOverlay)
    case NClearOverlay => Playing(NClearHeader)
    case NClearHeader => Playing(NClearKind)
    case NClearKind => Playing(NFree)
    case NFree => After(NOutcome)
    case NPanicked => Playing(NPanicked)
  }

  function AftermathGoto(m: Mount, e: Aftermath, cancelled: bool, flavour: Kind, stop: bool, choice: bool): NonLivePc {
    match e
    case NOutcome =>
      if cancelled then After(if stop then NExited else NSwap)
      else if (if flavour == Relay then stop else !choice) then After(NExited)
      else Trying(NTop)
    case NSwap => if m.preemptPending then After(NParked) else Trying(NTop)
    case NParked => if flavour == Relay && stop then After(NExited) else Trying(NTop)
    case NExited => After(NExited)
  }

  function NonLiveStore(m: Mount, t: NonLiveTask, flavour: Kind, stop: bool): Mount {
    match t.pc
    case Trying(w) =>
      if w == NWaitBlocked && !stop then m.(permit := false) else if w == NClaim then m.(connected := true) else m
    case Playing(p) => PassStore(m, p, t.token, flavour)
    case After(e) =>
      if e == NSwap then m.(preemptPending := false)
      else if e == NParked && !(flavour == Relay && stop) then m.(permit := false)
      else m
  }

  function PassStore(m: Mount, p: Pass, token: nat, flavour: Kind): Mount {
    match p
    case NSetKind => m.(kind := flavour)
    case NSetConnectedAt => m.(connectedAt := true)
    case NSetCancel => m.(cancel := Some(token))
    case NClearCancel => m.(cancel := None)
    case NClearConnectedAt => m.(connectedAt := false)
    case NClearOverlay => m.(overlay := false)
    case NClearHeader => m.(header := false)
    case NClearKind => m.(kind := NoKind)
    case NFree => m.(connected := false)
    case _ => m
  }

  /** The pass outcome: a lost token counts as cancelled, a run may be cut short
      once its token or the shutdown token has fired. */
  function PassCancelled(m: Mount, k: Tokens, t: NonLiveTask, stop: bool, choice: bool): bool {
    if t.pc == Trying(NClaim) then false
    else if t.pc == Playing(NReadToken) then m.cancel.None?
    else if t.pc == Playing(NRunning) then choice && (t.token in k.cancelled || stop)
    else t.cancelled
  }

  function Apply(s: State, step: Step): State
    requires Enabled(s, step)
  {
    match step
    case Connect(id, existing) =>
      // The creator of a dynamic mount has nothing to preempt and is already authenticated.
      s.(live := s.live[id := LiveTask(Arriving(if existing then LLoadConnected else LClaim), 0)])
    case LiveStep(id, choice) =>
      var t := s.live[id];
      var token := if t.pc == Arriving(LClaim) then s.tokens.next else t.token;
      s.(mount := LiveStore(s.mount, t), tokens := LiveTokens(s.mount, s.tokens, t.pc),
         live := s.live[id := LiveTask(LiveGoto(s.mount, t.pc, choice), token)])
    case LiveHeader(_) => s.(mount := s.mount.(header := true))
    case NonLiveStep(choice) =>
      var t := s.nonlive;
      var claims := t.pc == Trying(NClaim) && !s.mount.connected;
      s.(mount := NonLiveStore(s.mount, t, s.flavour, s.shutdown),
         tokens := if claims then s.tokens.(next := s.tokens.next + 1) else s.tokens,
         nonlive := NonLiveTask(NonLiveGoto(s.mount, t, s.flavour, s.shutdown, choice),
                                if claims then s.tokens.next else t.token,
                                PassCancelled(s.mount, s.tokens, t, s.shutdown, choice)))
    case NonLiveHeader => s.(mount := s.mount.(header := true))
    case Kick => s.(tokens := s.tokens.(cancelled := s.tokens.cancelled + {s.mount.cancel.value}))
    case Shutdown => s.(shutdown := true)
    case Respawn => s.(shutdown := false, nonlive := NonLiveTask(Trying(NTop), 0, false))
  }

  predicate ValidRun(s: State, run: seq<Step>)
    decreases |run|
  {
    run == [] || (Enabled(s, run[0]) && ValidRun(Apply(s, run[0]), run[1..]))
  }

  function Exec(s: State, run: seq<Step>): State
    requires ValidRun(s, run)
    decreases |run|
  {
    if run == [] then s else Exec(Apply(s, run[0]), run[1..])
  }

  // ── The invariant ─────────────────────────────────────────────────────────

  ghost predicate AnyLive(live: map<nat, LiveTask>, role: Role) {
    exists id :: id in live && LiveIs(role, live[id].pc)
  }

  /** Some task, of either sort, has the role. */
  ghost predicate Someone(s: State, role: Role) {
    NonLiveIs(role, s.nonlive.pc) || AnyLive(s.live, role)
  }

  /** No two tasks hold the slot at once. */
  ghost predicate OneHolder(s: State) {
    && (forall i, j :: i in s.live && j in s.live && LiveIs(Holding, s.live[i].pc) && LiveIs(Holding, s.live[j].pc)
          ==> i == j)
    && (NonLiveIs(Holding, s.nonlive.pc) ==> !AnyLive(s.live, Holding))
  }

  ghost predicate SlotOk(s: State) {
    (s.mount.connected <==> Someone(s, Holding)) && OneHolder(s)
  }

  /** The tag names the AutoDJ or Relay exactly while that task is the tagged holder. */
  ghost predicate KindOk(s: State) {
    && (s.flavour == AutoDj || s.flavour == Relay)
    && s.mount.kind == if Tagged(s.nonlive.pc) then s.flavour else NoKind
  }

  /** The mount field that a role is about (`Owing` is about none). */
  predicate IsSet(m: Mount, role: Role) {
    match role
    case Holding => m.connected
    case Owing => false
    case OwnsCancel => m.cancel.Some?
    case OwnsConnectedAt => m.connectedAt
    case OwnsOverlay => m.overlay
    case OwnsHeader => m.header
  }

  /** Whatever is set on the mount, some task still has to clear it. */
  ghost predicate FieldsOwned(s: State) {
    forall role: Role :: IsSet(s.mount, role) ==> Someone(s, role)
  }

  ghost predicate NoLostWakeup(s: State) {
    s.nonlive.pc == Trying(NWaitBlocked) ==> s.mount.permit || AnyLive(s.live, Owing)
  }

  ghost predicate Inv(s: State) {
    SlotOk(s) && KindOk(s) && FieldsOwned(s) && NoLostWakeup(s)
  }

  lemma UpdateLive(live: map<nat, LiveTask>, id: nat, t: LiveTask, role: Role)
    ensures LiveIs(role, t.pc) ==> AnyLive(live[id := t], role)
    ensures (AnyLive(live, role) && (id in live && LiveIs(role, live[id].pc) ==> LiveIs(role, t.pc)))
      ==> AnyLive(live[id := t], role)
    ensures AnyLive(live[id := t], role) ==> LiveIs(role, t.pc) || AnyLive(live, role)
  {
    var after := live[id := t];
    assert id in after;
    if AnyLive(live, role) && (id in live && LiveIs(role, live[id].pc) ==> LiveIs(role, t.pc)) {
      var j :| j in live && LiveIs(role, live[j].pc);
      assert j in after;
    }
  }

  /** The discipline of one step on the mount: only a task that takes a role
      sets its field, dropping the role leaves the field clear, and the slot
      itself is taken when free and freed by its holder alone. */
  predicate Disciplined(m: Mount, m': Mount, role: Role, before: bool, after: bool) {
    && (IsSet(m', role) && !IsSet(m, role) ==> after)
    && (before && !after ==> !IsSet(m', role))
    && (role == Holding ==>
      if before == after then m'.connected == m.connected else m.connected == before && m'.connected == after)
  }

  lemma TenureDiscipline(m: Mount, t: Tenure, token: nat, role: Role)
    requires m.connected
    ensures Disciplined(m, TenureStore(m, t, token), role,
                        LiveIs(role, Serving(t)), LiveIs(role, LiveGoto(m, Serving(t), false)))
  {
  }

  lemma TearDownDiscipline(m: Mount, d: TearDown, role: Role)
    ensures Disciplined(m, TearDownStore(m, d), role,
                        LiveIs(role, Leaving(d)), LiveIs(role, LiveGoto(m, Leaving(d), false)))
  {
  }

  lemma LiveDiscipline(m: Mount, t: LiveTask, choice: bool, role: Role)
    requires LiveIs(Holding, t.pc) ==> m.connected
    ensures Disciplined(m, LiveStore(m, t), role, LiveIs(role, t.pc), LiveIs(role, LiveGoto(m, t.pc, choice)))
  {
    match t.pc
    case Arriving(a) => ArrivalManners(m, a, choice);
    case Serving(at) => TenureDiscipline(m, at, t.token, role);
    case Leaving(d) => TearDownDiscipline(m, d, role);
    case Gone =>
  }

  lemma ArrivalManners(m: Mount, a: Arrival, choice: bool)
    ensures var pc' := ArrivalGoto(m, a, choice);
      !pc'.Leaving? && (pc'.Serving? <==> a == LClaim && !m.connected) && (pc'.Serving? ==> pc' == Serving(LSetCancel))
  {
  }

  /** Live sources never touch the kind tag, and wake the other side before they are done. */
  lemma LiveManners(m: Mount, t: LiveTask, choice: bool)
    ensures var m' := LiveStore(m, t);
      && m'.kind == m.kind
      && (m.permit || (LiveIs(Owing, t.pc) && !LiveIs(Owing, LiveGoto(m, t.pc, choice))) ==> m'.permit)
  {
    match t.pc
    case Arriving(a) =>
    case Serving(at) => assert !LiveGoto(m, t.pc, choice).Gone?;
    case Leaving(d) => assert d != LNotify ==> LiveGoto(m, t.pc, choice).Leaving?;
    case Gone =>
  }

  lemma PassDiscipline(m: Mount, p: Pass, token: nat, flavour: Kind, role: Role)
    requires m.connected
    ensures Disciplined(
      m, PassStore(m, p, token, flavour), role, PassIs(role, p), NonLiveIs(role, PassGoto(m, p, flavour)))
  {
  }

  lemma WaitDiscipline(m: Mount, w: Wait, flavour: Kind, stop: bool, choice: bool)
    ensures var pc' := WaitGoto(m, w, flavour, stop, choice);
      && (pc'.Playing? <==> w == NClaim && !m.connected)
      && (pc'.Playing? ==> pc' == Playing(NSetKind))
      && (pc' == Trying(NWaitBlocked) ==> w == NWaitLoad && m.connected)
  {
  }

  lemma NonLiveDiscipline(m: Mount, t: NonLiveTask, flavour: Kind, stop: bool, choice: bool, role: Role)
    requires NonLiveIs(Holding, t.pc) ==> m.connected
    ensures Disciplined(m, NonLiveStore(m, t, flavour, stop), role,
                        NonLiveIs(role, t.pc), NonLiveIs(role, NonLiveGoto(m, t, flavour, stop, choice)))
  {
    match t.pc
    case Trying(w) => WaitDiscipline(m, w, flavour, stop, choice);
    case Playing(p) => PassDiscipline(m, p, t.token, flavour, role);
    case After(e) =>
  }

  lemma PassKind(m: Mount, p: Pass, token: nat, flavour: Kind)
    ensures PassStore(m, p, token, flavour).kind ==
      if p == NSetKind then flavour else if p == NClearKind then NoKind else m.kind
  {
  }

  lemma PassTagged(m: Mount, p: Pass, flavour: Kind)
    ensures Tagged(PassGoto(m, p, flavour)) <==> p != NClearKind && p != NFree
  {
  }

  lemma PassManners(m: Mount, p: Pass, token: nat, flavour: Kind)
    requires m.kind == if p == NSetKind || p == NFree then NoKind else flavour
    ensures PassStore(m, p, token, flavour).kind == if Tagged(PassGoto(m, p, flavour)) then flavour else NoKind
  {
    hide PassStore, PassGoto, Tagged;
    PassKind(m, p, token, flavour);
    PassTagged(m, p, flavour);
  }

  lemma AftermathManners(m: Mount, e: Aftermath, cancelled: bool, flavour: Kind, stop: bool, choice: bool)
    ensures var pc' := AftermathGoto(m, e, cancelled, flavour, stop, choice);
      pc' == Trying(NTop) || pc'.After?
  {
  }

  lemma WaitManners(m: Mount, w: Wait, t: NonLiveTask, flavour: Kind, stop: bool, choice: bool)
    requires t.pc == Trying(w)
    ensures NonLiveStore(m, t, flavour, stop).kind == m.kind && !Tagged(NonLiveGoto(m, t, flavour, stop, choice))
  {
    hide WaitGoto;
    WaitDiscipline(m, w, flavour, stop, choice);
  }

  lemma AfterManners(m: Mount, e: Aftermath, t: NonLiveTask, flavour: Kind, stop: bool, choice: bool)
    requires t.pc == After(e)
    ensures NonLiveStore(m, t, flavour, stop).kind == m.kind && !Tagged(NonLiveGoto(m, t, flavour, stop, choice))
  {
    hide AftermathGoto;
    AftermathManners(m, e, t.cancelled, flavour, stop, choice);
  }

  lemma NonLiveManners(m: Mount, t: NonLiveTask, flavour: Kind, stop: bool, choice: bool)
    requires m.kind == if Tagged(t.pc) then flavour else NoKind
    ensures var pc' := NonLiveGoto(m, t, flavour, stop, choice);
      NonLiveStore(m, t, flavour, stop).kind == if Tagged(pc') then flavour else NoKind
  {
    hide PassStore, PassGoto, WaitGoto, AftermathGoto;
    match t.pc
    case Trying(w) => WaitManners(m, w, t, flavour, stop, choice);
    case Playing(p) => PassManners(m, p, t.token, flavour);
    case After(e) => AfterManners(m, e, t, flavour, stop, choice);
  }

  /** The task blocks in its wait loop only right after seeing the slot taken. */
  lemma BlocksOnlyWhenTaken(m: Mount, t: NonLiveTask, flavour: Kind, stop: bool, choice: bool)
    ensures NonLiveGoto(m, t, flavour, stop, choice) == Trying(NWaitBlocked) ==>
      t.pc == Trying(NWaitLoad) && m.connected
  {
    match t.pc
    case Trying(w) => WaitDiscipline(m, w, flavour, stop, choice);
    case Playing(p) =>
    case After(e) => AftermathManners(m, e, t.cancelled, flavour, stop, choice);
  }

  lemma LiveMoveKeepsInv(s: State, id: nat, pc: LivePc, m': Mount, k': Tokens, t': LiveTask)
    requires Inv(s)
    requires pc == if id in s.live then s.live[id].pc else Gone
    requires forall role: Role :: Disciplined(s.mount, m', role, LiveIs(role, pc), LiveIs(role, t'.pc))
    requires m'.kind == s.mount.kind
    requires (s.mount.permit || (LiveIs(Owing, pc) && !LiveIs(Owing, t'.pc))) ==> m'.permit
    ensures Inv(s.(mount := m', tokens := k', live := s.live[id := t']))
  {
    var s' := s.(mount := m', tokens := k', live := s.live[id := t']);
    forall role: Role ensures IsSet(m', role) ==> Someone(s', role) {
      assert Disciplined(s.mount, m', role, LiveIs(role, pc), LiveIs(role, t'.pc));
      UpdateLive(s.live, id, t', role);
    }
    assert Disciplined(s.mount, m', Holding, LiveIs(Holding, pc), LiveIs(Holding, t'.pc));
    UpdateLive(s.live, id, t', Holding);
    UpdateLive(s.live, id, t', Owing);
    OnlyHolder(s, id);
  }

  lemma NonLiveMoveKeepsInv(s: State, m': Mount, k': Tokens, t': NonLiveTask)
    requires Inv(s)
    requires forall role: Role ::
      Disciplined(s.mount, m', role, NonLiveIs(role, s.nonlive.pc), NonLiveIs(role, t'.pc))
    requires m'.kind == if Tagged(t'.pc) then s.flavour else NoKind
    requires t'.pc == Trying(NWaitBlocked) ==> s.nonlive.pc == Trying(NWaitLoad) && s.mount.connected
    ensures Inv(s.(mount := m', tokens := k', nonlive := t'))
  {
    var s' := s.(mount := m', tokens := k', nonlive := t');
    forall role: Role ensures IsSet(m', role) ==> Someone(s', role) {
      assert Disciplined(s.mount, m', role, NonLiveIs(role, s.nonlive.pc), NonLiveIs(role, t'.pc));
    }
    assert Disciplined(s.mount, m', Holding, NonLiveIs(Holding, s.nonlive.pc), NonLiveIs(Holding, t'.pc));
    if t'.pc == Trying(NWaitBlocked) {
      var j :| j in s.live && LiveIs(Holding, s.live[j].pc);
      assert LiveIs(Owing, s.live[j].pc);
    }
  }

  lemma OnlyHolder(s: State, id: nat)
    requires Inv(s)
    ensures id in s.live && LiveIs(Holding, s.live[id].pc) ==>
      s.mount.connected && forall j :: j in s.live && LiveIs(Holding, s.live[j].pc) ==> j == id
  {
  }

  lemma HeaderKeepsInv(s: State)
    requires Inv(s) && Someone(s, OwnsHeader)
    ensures Inv(s.(mount := s.mount.(header := true)))
  {
    var s' := s.(mount := s.mount.(header := true));
    forall role: Role ensures IsSet(s'.mount, role) ==> Someone(s', role) {
      assert role != OwnsHeader ==> IsSet(s.mount, role) == IsSet(s'.mount, role);
    }
  }

  lemma StepKeepsInv(s: State, step: Step)
    requires Inv(s) && Enabled(s, step)
    ensures Inv(Apply(s, step))
  {
    match step
    case LiveStep(id, choice) =>
      var t, s' := s.live[id], Apply(s, step);
      OnlyHolder(s, id);
      forall role: Role { LiveDiscipline(s.mount, t, choice, role); }
      LiveManners(s.mount, t, choice);
      LiveMoveKeepsInv(s, id, t.pc, s'.mount, s'.tokens, s'.live[id]);
    case Connect(id, existing) =>
      LiveMoveKeepsInv(s, id, Gone, s.mount, s.tokens, Apply(s, step).live[id]);
    case NonLiveStep(choice) =>
      var s' := Apply(s, step);
      forall role: Role { NonLiveDiscipline(s.mount, s.nonlive, s.flavour, s.shutdown, choice, role); }
      NonLiveManners(s.mount, s.nonlive, s.flavour, s.shutdown, choice);
      BlocksOnlyWhenTaken(s.mount, s.nonlive, s.flavour, s.shutdown, choice);
      NonLiveMoveKeepsInv(s, s'.mount, s'.tokens, s'.nonlive);
    case LiveHeader(id) => HeaderKeepsInv(s); assert LiveIs(OwnsHeader, s.live[id].pc);
    case NonLiveHeader => HeaderKeepsInv(s);
    case Kick =>
    case Shutdown =>
    case Respawn =>
  }

  lemma {:induction false} RunKeepsInv(s: State, run: seq<Step>)
    requires Inv(s) && ValidRun(s, run)
    ensures Inv(Exec(s, run))
    decreases |run|
  {
    if run != [] {
      StepKeepsInv(s, run[0]);
      RunKeepsInv(Apply(s, run[0]), run[1..]);
    }
  }

  lemma InitInv(flavour: Kind)
    requires flavour == AutoDj || flavour == Relay
    ensures Inv(Init(flavour))
  {
  }

  // ── What every reachable state satisfies ──────────────────────────────────

  datatype Who = LiveSource(id: nat) | NonLiveOwner

  predicate Has(s: State, who: Who, role: Role) {
    match who
    case LiveSource(id) => id in s.live && LiveIs(role, s.live[id].pc)
    case NonLiveOwner => NonLiveIs(role, s.nonlive.pc)
  }

  ghost predicate Reachable(s: State) {
    exists run ::
      && (s.flavour == AutoDj || s.flavour == Relay)
      && ValidRun(Init(s.flavour), run)
      && s == Exec(Init(s.flavour), run)
  }

  lemma ReachableInv(s: State)
    requires Reachable(s)
    ensures Inv(s)
  {
    var run :| ValidRun(Init(s.flavour), run) && s == Exec(Init(s.flavour), run);
    InitInv(s.flavour);
    RunKeepsInv(Init(s.flavour), run);
  }

  /** `source_connected` is true exactly when a task holds the slot, there is
      never a second holder, and a non-live tag is up only over a non-live holder. */
  lemma SlotSafety(s: State)
    requires Reachable(s)
    ensures s.mount.connected <==> exists who :: Has(s, who, Holding)
    ensures forall a, b :: Has(s, a, Holding) && Has(s, b, Holding) ==> a == b
    ensures s.mount.kind != NoKind ==> s.mount.kind == s.flavour && Has(s, NonLiveOwner, Holding)
  {
    ReachableInv(s);
    if s.mount.connected {
      if NonLiveIs(Holding, s.nonlive.pc) {
        assert Has(s, NonLiveOwner, Holding);
      } else {
        var id :| id in s.live && LiveIs(Holding, s.live[id].pc);
        assert Has(s, LiveSource(id), Holding);
      }
    }
  }

  /** A task blocked in the wait loop has a stored permit, or some live source
      that holds the slot or is tearing down still has to notify it. */
  lemma WaiterIsOwedAWakeup(s: State)
    requires Reachable(s) && s.nonlive.pc == Trying(NWaitBlocked)
    ensures s.mount.permit || exists id :: Has(s, LiveSource(id), Owing)
  {
    ReachableInv(s);
    if !s.mount.permit {
      var id :| id in s.live && LiveIs(Owing, s.live[id].pc);
      assert Has(s, LiveSource(id), Owing);
    }
  }

  /** When nobody is claiming, holding or releasing, the mount is clean. */
  lemma QuiescentMountIsClean(s: State)
    requires Reachable(s)
    requires forall who: Who, role: Role :: !Has(s, who, role)
    ensures s.mount == Mount(false, NoKind, None, false, false, false, s.mount.preemptPending, s.mount.permit)
  {
    ReachableInv(s);
    forall role: Role ensures !IsSet(s.mount, role) {
      assert !Has(s, NonLiveOwner, role);
      if AnyLive(s.live, role) {
        var id :| id in s.live && LiveIs(role, s.live[id].pc);
        assert Has(s, LiveSource(id), role);
      }
    }
    assert !IsSet(s.mount, Holding) && !IsSet(s.mount, OwnsCancel) && !IsSet(s.mount, OwnsConnectedAt);
    assert !IsSet(s.mount, OwnsOverlay) && !IsSet(s.mount, OwnsHeader);
    assert !Has(s, NonLiveOwner, Holding);
  }

  // ── When a holder keeps its cancel token ──────────────────────────────────

  /** A disconnect guard has freed the slot and not yet cleared the token. */
  ghost predicate GuardMidRelease(s: State) {
    exists id :: id in s.live && s.live[id].pc == Leaving(LClearCancel)
  }

  predicate JustClaimed(s: State, who: Who) {
    match who
    case LiveSource(id) => id in s.live && s.live[id].pc == Serving(LSetCancel)
    case NonLiveOwner => s.nonlive.pc == Playing(NSetKind)
  }

  /** The task has stored its own token and not yet cleared it. */
  predicate TokenInPlace(s: State, who: Who) {
    match who
    case LiveSource(id) => Has(s, who, OwnsCancel) && Has(s, who, Holding)
    case NonLiveOwner => Has(s, who, OwnsCancel)
  }

  function TokenOf(s: State, who: Who): nat
    requires Has(s, who, Holding)
  {
    match who
    case LiveSource(id) => s.live[id].token
    case NonLiveOwner => s.nonlive.token
  }

  /** `run` leads from `s` to `s'` with `who` holding the slot all the way. */
  ghost predicate HeldTo(s: State, who: Who, run: seq<Step>, s': State)
    decreases |run|
  {
    Has(s, who, Holding) &&
    if run == [] then s' == s else Enabled(s, run[0]) && HeldTo(Apply(s, run[0]), who, run[1..], s')
  }

  ghost predicate TokenSafe(s: State, who: Who, token: nat) {
    && Has(s, who, Holding)
    && TokenOf(s, who) == token
    && !GuardMidRelease(s)
    && (TokenInPlace(s, who) ==> s.mount.cancel == Some(token))
    && s.nonlive.pc != Playing(NPanicked)
  }

  /** While `who` holds, the other tasks write the token only from `LClearCancel`. */
  lemma LiveStepKeepsToken(s: State, who: Who, token: nat, id: nat, choice: bool)
    requires Inv(s) && TokenSafe(s, who, token) && Enabled(s, LiveStep(id, choice))
    requires Has(Apply(s, LiveStep(id, choice)), who, Holding)
    ensures TokenSafe(Apply(s, LiveStep(id, choice)), who, token)
  {
    hide FieldsOwned, NoLostWakeup, LiveTokens, ArrivalGoto;
    var s' := Apply(s, LiveStep(id, choice));
    assert who != LiveSource(id) ==> !Has(s, LiveSource(id), Holding);
    assert s.live[id].pc != Leaving(LClearCancel) && s.mount.connected;
    if s.live[id].pc.Arriving? { ArrivalManners(s.mount, s.live[id].pc.a, choice); }
    forall j | j in s'.live ensures s'.live[j].pc != Leaving(LClearCancel) {
      assert j != id ==> s'.live[j] == s.live[j];
    }
  }

  lemma NonLiveStepKeepsToken(s: State, who: Who, token: nat, choice: bool)
    requires Inv(s) && TokenSafe(s, who, token) && Enabled(s, NonLiveStep(choice))
    requires Has(Apply(s, NonLiveStep(choice)), who, Holding)
    ensures TokenSafe(Apply(s, NonLiveStep(choice)), who, token)
  {
    assert who != NonLiveOwner ==> !Has(s, NonLiveOwner, Holding);
    assert s.mount.connected;
  }

  lemma {:induction false} HeldRunKeepsToken(s: State, who: Who, token: nat, run: seq<Step>, s': State)
    requires Inv(s) && TokenSafe(s, who, token) && HeldTo(s, who, run, s')
    ensures TokenSafe(s', who, token)
    decreases |run|
  {
    if run != [] {
      var next := Apply(s, run[0]);
      StepKeepsInv(s, run[0]);
      match run[0] {
        case LiveStep(id, choice) => LiveStepKeepsToken(s, who, token, id, choice);
        case NonLiveStep(choice) => NonLiveStepKeepsToken(s, who, token, choice);
        case _ =>
      }
      HeldRunKeepsToken(next, who, token, run[1..], s');
    }
  }

  /** The claimant's steps up to and including the store of its token, followed
      by the overtaken guard's clearing store. */
  function WipingRun(who: Who, guard: nat): seq<Step> {
    match who
    case LiveSource(id) => [LiveStep(id, false), LiveStep(guard, false)]
    case NonLiveOwner => [NonLiveStep(false), NonLiveStep(false), NonLiveStep(false), LiveStep(guard, false)]
  }

  lemma GuardWipesToken(s: State, who: Who, guard: nat) returns (s': State)
    requires JustClaimed(s, who) && guard in s.live && s.live[guard].pc == Leaving(LClearCancel)
    ensures HeldTo(s, who, WipingRun(who, guard), s')
    ensures TokenInPlace(s', who) && s'.mount.cancel.None?
    ensures who == NonLiveOwner ==> s'.nonlive.pc == Playing(NReadToken) && s'.flavour == s.flavour
  {
    var run := WipingRun(who, guard);
    var s1 := Apply(s, run[0]);
    var s2 := Apply(s1, run[1]);
    if who.LiveSource? {
      s' := s2;
      assert HeldTo(s2, who, run[1..][1..], s2);
      assert HeldTo(s1, who, run[1..], s2);
    } else {
      var s3 := Apply(s2, run[2]);
      s' := Apply(s3, run[3]);
      assert HeldTo(s', who, run[1..][1..][1..][1..], s');
      assert HeldTo(s3, who, run[1..][1..][1..], s');
      assert HeldTo(s2, who, run[1..][1..], s');
      assert HeldTo(s1, who, run[1..], s');
    }
  }

  /** In every continuation of this hold, the mount carries the holder's own
      token whenever it is supposed to. */
  ghost predicate AlwaysKeepsToken(s: State, who: Who)
    requires Has(s, who, Holding)
  {
    forall run, s' :: HeldTo(s, who, run, s') && TokenInPlace(s', who) ==> s'.mount.cancel == Some(TokenOf(s, who))
  }

  ghost predicate MayPanic(s: State) {
    exists run, s' :: HeldTo(s, NonLiveOwner, run, s') && s'.nonlive.pc == Playing(NPanicked)
  }

  /** "A holder always has a cancel token" is false. It holds for a claim, in
      every continuation, exactly when no disconnect guard was between freeing
      the slot and clearing the token at the moment of the claim. */
  lemma TokenKeptIff(s: State, who: Who)
    requires Reachable(s) && JustClaimed(s, who)
    ensures AlwaysKeepsToken(s, who) <==> !GuardMidRelease(s)
  {
    ReachableInv(s);
    if GuardMidRelease(s) {
      var guard :| guard in s.live && s.live[guard].pc == Leaving(LClearCancel);
      var s' := GuardWipesToken(s, who, guard);
      assert HeldTo(s, who, WipingRun(who, guard), s') && TokenInPlace(s', who) && s'.mount.cancel.None?;
    } else {
      assert who != NonLiveOwner ==> !Has(s, NonLiveOwner, Holding);
      forall run, s' | HeldTo(s, who, run, s') && TokenInPlace(s', who)
        ensures s'.mount.cancel == Some(TokenOf(s, who))
      {
        HeldRunKeepsToken(s, who, TokenOf(s, who), run, s');
      }
    }
  }

  /** The relay's `expect("claim_slot installed a cancel token")` can fail, under
      the same condition and no other. */
  lemma RelayPanicsIff(s: State)
    requires Reachable(s) && s.flavour == Relay && JustClaimed(s, NonLiveOwner)
    ensures MayPanic(s) <==> GuardMidRelease(s)
  {
    hide Reachable, Inv;
    ReachableInv(s);
    if GuardMidRelease(s) {
      var guard :| guard in s.live && s.live[guard].pc == Leaving(LClearCancel);
      var wiped := GuardWipesToken(s, NonLiveOwner, guard);
      var run := WipingRun(NonLiveOwner, guard);
      var s' := Apply(wiped, NonLiveStep(false));
      assert HeldTo(wiped, NonLiveOwner, [NonLiveStep(false)], s');
      HeldToTrans(s, NonLiveOwner, run, wiped, [NonLiveStep(false)], s');
      assert s'.nonlive.pc == Playing(NPanicked);
    } else {
      forall run, s' | HeldTo(s, NonLiveOwner, run, s') ensures s'.nonlive.pc != Playing(NPanicked) {
        HeldRunKeepsToken(s, NonLiveOwner, TokenOf(s, NonLiveOwner), run, s');
      }
    }
  }

  lemma {:induction false} HeldToTrans(s: State, who: Who, a: seq<Step>, s1: State, b: seq<Step>, s2: State)
    requires HeldTo(s, who, a, s1) && HeldTo(s1, who, b, s2)
    ensures HeldTo(s, who, a + b, s2)
    decreases |a|
  {
    if a == [] {
      assert a + b == b;
    } else {
      assert (a + b)[1..] == a[1..] + b;
      HeldToTrans(Apply(s, a[0]), who, a[1..], s1, b, s2);
    }
  }

  // ── Preempted and parked ──────────────────────────────────────────────────

  /** The task parked after a preemption, and nobody owes it a notify. */
  ghost predicate Stranded(s: State) {
    s.nonlive.pc == After(NParked) && !s.mount.permit && !AnyLive(s.live, Owing)
  }

  predicate IsLiveClaim(s: State, step: Step) {
    step.LiveStep? && step.id in s.live && s.live[step.id].pc == Arriving(LClaim) && !s.mount.connected
  }

  predicate LiveClaimIn(s: State, run: seq<Step>)
    requires ValidRun(s, run)
    decreases |run|
  {
    run != [] && (IsLiveClaim(s, run[0]) || LiveClaimIn(Apply(s, run[0]), run[1..]))
  }

  /** One step of anyone but the parked task. */
  lemma ParkedStep(s: State, step: Step)
    requires Inv(s) && s.nonlive.pc == After(NParked) && Enabled(s, step) && !step.NonLiveStep?
    ensures var s' := Apply(s, step);
      s'.nonlive == s.nonlive && (Stranded(s') <==> Stranded(s) && !IsLiveClaim(s, step))
  {
    match step
    case LiveStep(id, choice) =>
      var t := s.live[id];
      var t' := Apply(s, step).live[id];
      LiveManners(s.mount, t, choice);
      UpdateLive(s.live, id, t', Owing);
      if LiveIs(Owing, t.pc) { assert AnyLive(s.live, Owing); }
    case Connect(id, existing) => UpdateLive(s.live, id, Apply(s, step).live[id], Owing);
    case _ =>
  }

  /** "A task parked after preemption always resumes" is false: preemption comes
      before the password check, so the preempting source may never claim. As
      long as the parked task itself does not move, it is owed a wake-up after a
      run exactly when some live source claimed the slot during the run. */
  lemma {:induction false} StrandedIff(s: State, run: seq<Step>)
    requires Inv(s) && s.nonlive.pc == After(NParked) && ValidRun(s, run)
    requires forall step :: step in run ==> !step.NonLiveStep?
    ensures Stranded(Exec(s, run)) <==> Stranded(s) && !LiveClaimIn(s, run)
    decreases |run|
  {
    if run != [] {
      StepKeepsInv(s, run[0]);
      ParkedStep(s, run[0]);
      StrandedIff(Apply(s, run[0]), run[1..]);
    }
  }

  /** A stranded AutoDJ cannot move at all, not even to obey its shutdown token;
      a stranded relay can only obey that token. */
  lemma StrandedCannotMove(s: State, choice: bool)
    requires Stranded(s)
    ensures Enabled(s, NonLiveStep(choice)) <==> s.flavour == Relay && s.shutdown
  {
  }

  // ── Both failures are reachable ───────────────────────────────────────────

  lemma {:induction false} ExecAppend(s: State, run: seq<Step>, step: Step)
    requires ValidRun(s, run) && Enabled(Exec(s, run), step)
    ensures ValidRun(s, run + [step]) && Exec(s, run + [step]) == Apply(Exec(s, run), step)
    decreases |run|
  {
    if run == [] {
      assert run + [step] == [step];
      assert ValidRun(Apply(s, step), [step][1..]);
    } else {
      assert (run + [step])[1..] == run[1..] + [step];
      ExecAppend(Apply(s, run[0]), run[1..], step);
    }
  }

  lemma ReachableStep(s: State, step: Step)
    requires Reachable(s) && Enabled(s, step)
    ensures Reachable(Apply(s, step))
  {
    var run :| ValidRun(Init(s.flavour), run) && s == Exec(Init(s.flavour), run);
    ExecAppend(Init(s.flavour), run, step);
  }

  lemma StartIsReachable(flavour: Kind)
    requires flavour == AutoDj || flavour == Relay
    ensures Reachable(Init(flavour))
  {
    var s, run: seq<Step> := Init(flavour), [];
    assert ValidRun(Init(s.flavour), run) && s == Exec(Init(s.flavour), run);
  }

  const CLAIM_PATH := [Trying(NTop), Trying(NLoad), Trying(NPrepare), Trying(NClaim)]
  const TENURE_PATH := [LSetCancel, LSetConnectedAt, LSetOverlay, LRunning, LFree]
  const START_PATH := [NSetKind, NSetConnectedAt, NSetCancel, NReadToken, NRunning]
  const PREEMPT_PATH := [LLoadConnected, LLoadKind, LStorePreempt, LReadToken]
  const STOP_PATH := [NClearCancel, NClearConnectedAt, NClearOverlay, NClearHeader, NClearKind, NFree]

  /** The AutoDJ or Relay task claims a free slot. */
  lemma {:induction false} NonLiveClaims(s: State, n: nat) returns (s': State)
    requires Reachable(s) && s.nonlive.pc == Trying(NTop) && !s.shutdown && !s.mount.connected && n <= 4
    ensures Reachable(s') && s'.live == s.live && s'.flavour == s.flavour && !s'.shutdown
    ensures n < 4 ==> s'.nonlive.pc == CLAIM_PATH[n] && s'.mount == s.mount
    ensures n == 4 ==>
      && s'.nonlive.pc == Playing(NSetKind) && !s'.nonlive.cancelled
      && s'.mount == s.mount.(connected := true)
  {
    hide Reachable;
    if n == 0 {
      s' := s;
    } else {
      var before := NonLiveClaims(s, n - 1);
      ReachableStep(before, NonLiveStep(true));
      s' := Apply(before, NonLiveStep(true));
    }
  }

  /** It announces itself and starts to play. */
  lemma {:induction false} NonLiveStarts(s: State, n: nat) returns (s': State)
    requires Reachable(s) && s.nonlive.pc == Playing(NSetKind) && !s.shutdown && s.mount.connected && n <= 4
    requires !s.nonlive.cancelled
    ensures Reachable(s') && s'.live == s.live && s'.flavour == s.flavour && !s'.shutdown
    ensures s'.nonlive == s.nonlive.(pc := Playing(START_PATH[n]))
    ensures s'.mount == s.mount.(kind := if n >= 1 then s.flavour else s.mount.kind,
                                 connectedAt := s.mount.connectedAt || n >= 2,
                                 cancel := if n >= 3 then Some(s.nonlive.token) else s.mount.cancel)
  {
    hide Reachable;
    if n == 0 {
      s' := s;
    } else {
      var before := NonLiveStarts(s, n - 1);
      ReachableStep(before, NonLiveStep(true));
      s' := Apply(before, NonLiveStep(true));
    }
  }

  lemma {:induction false} LiveServes(s: State, n: nat) returns (s': State)
    requires Reachable(s) && 0 in s.live && s.live[0].pc == Serving(LSetCancel) && s.mount.connected && n <= 4
    ensures Reachable(s') && s'.flavour == s.flavour && s'.nonlive == s.nonlive && s'.shutdown == s.shutdown
    ensures 0 in s'.live && s'.live[0].pc == Serving(TENURE_PATH[n]) && s'.mount.connected
  {
    hide Reachable;
    if n == 0 {
      s' := s;
    } else {
      var before := LiveServes(s, n - 1);
      ReachableStep(before, LiveStep(0, false));
      s' := Apply(before, LiveStep(0, false));
    }
  }

  /** A source disconnects, and the task claims before the guard has finished. */
  lemma WipedTokenIsReachable(flavour: Kind) returns (s: State)
    requires flavour == AutoDj || flavour == Relay
    ensures Reachable(s) && s.flavour == flavour && JustClaimed(s, NonLiveOwner) && GuardMidRelease(s)
  {
    hide Reachable;
    s := Init(flavour);
    StartIsReachable(flavour);
    ReachableStep(s, Connect(0, false));
    s := Apply(s, Connect(0, false));
    ReachableStep(s, LiveStep(0, false));
    s := Apply(s, LiveStep(0, false));
    s := LiveServes(s, 4);
    ReachableStep(s, LiveStep(0, false));
    s := Apply(s, LiveStep(0, false));
    s := NonLiveClaims(s, 4);
    assert s.live[0].pc == Leaving(LClearCancel);
  }

  /** A live source finds the AutoDJ or Relay on the slot and goes for its token. */
  lemma {:induction false} LivePreempts(s: State, n: nat) returns (s': State)
    requires Reachable(s) && s.live.Keys == {0} && s.live[0].pc == Arriving(LLoadConnected) && n <= 3
    requires s.mount.connected && s.mount.kind == s.flavour && s.flavour != Live && s.flavour != NoKind
    ensures Reachable(s') && s'.flavour == s.flavour && s'.shutdown == s.shutdown && s'.nonlive == s.nonlive
    ensures s'.live.Keys == {0} && s'.live[0].pc == Arriving(PREEMPT_PATH[n])
    ensures s'.mount == s.mount.(preemptPending := s.mount.preemptPending || n == 3)
  {
    hide Reachable;
    if n == 0 {
      s' := s;
    } else {
      var before := LivePreempts(s, n - 1);
      ReachableStep(before, LiveStep(0, false));
      s' := Apply(before, LiveStep(0, false));
    }
  }

  /** The task gives the slot back. */
  lemma {:induction false} NonLiveStops(s: State, n: nat) returns (s': State)
    requires Reachable(s) && s.nonlive.pc == Playing(NClearCancel) && s.mount.connected && n <= 5
    ensures Reachable(s') && s'.flavour == s.flavour && s'.shutdown == s.shutdown && s'.live == s.live
    ensures s'.nonlive == s.nonlive.(pc := Playing(STOP_PATH[n])) && s'.mount.connected
    ensures s'.mount.preemptPending == s.mount.preemptPending && s'.mount.permit == s.mount.permit
  {
    hide Reachable;
    if n == 0 {
      s' := s;
    } else {
      var before := NonLiveStops(s, n - 1);
      ReachableStep(before, NonLiveStep(true));
      s' := Apply(before, NonLiveStep(true));
    }
  }

  /** Cancelled and preempted, the task releases the slot and parks. */
  lemma NonLiveParks(s: State) returns (s': State)
    requires Reachable(s) && s.nonlive.pc == Playing(NRunning) && s.nonlive.token in s.tokens.cancelled
    requires !s.shutdown && s.mount.connected && s.mount.preemptPending && !s.mount.permit
    ensures Reachable(s') && s'.flavour == s.flavour && s'.live == s.live
    ensures s'.nonlive.pc == After(NParked) && !s'.mount.permit && !s'.mount.connected
  {
    hide Reachable;
    ReachableStep(s, NonLiveStep(true));
    s' := NonLiveStops(Apply(s, NonLiveStep(true)), 5);
    ReachableStep(s', NonLiveStep(true));
    s' := Apply(s', NonLiveStep(true));
    ReachableStep(s', NonLiveStep(true));
    s' := Apply(s', NonLiveStep(true));
    ReachableStep(s', NonLiveStep(true));
    s' := Apply(s', NonLiveStep(true));
  }

  lemma PreemptedIsReachable(flavour: Kind) returns (s: State)
    requires flavour == AutoDj || flavour == Relay
    ensures Reachable(s) && s.flavour == flavour && s.nonlive.pc == After(NParked) && !s.mount.permit
    ensures s.live.Keys == {0} && s.live[0].pc == Arriving(LPoll) && !s.mount.connected
  {
    hide Reachable;
    s := Init(flavour);
    StartIsReachable(flavour);
    s := NonLiveClaims(s, 4);
    s := NonLiveStarts(s, 4);
    ReachableStep(s, Connect(0, true));
    s := LivePreempts(Apply(s, Connect(0, true)), 3);
    ReachableStep(s, LiveStep(0, false));
    s := Apply(s, LiveStep(0, false));
    ReachableStep(s, LiveStep(0, false));
    s := NonLiveParks(Apply(s, LiveStep(0, false)));
  }

  /** A source that preempts and then fails its password check strands the task. */
  lemma StrandedIsReachable(flavour: Kind) returns (s: State)
    requires flavour == AutoDj || flavour == Relay
    ensures Reachable(s) && s.flavour == flavour && Stranded(s)
  {
    s := PreemptedIsReachable(flavour);
    ReachableStep(s, LiveStep(0, false));
    s := Apply(s, LiveStep(0, false));
    ReachableStep(s, LiveStep(0, false));
    s := Apply(s, LiveStep(0, false));
  }
}
