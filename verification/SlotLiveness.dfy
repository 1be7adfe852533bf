/** What the tasks of a mount can still get to: who claims, plays, serves and ends when
    the others stand still. Each theorem is about runs of the whole machine. */
module SlotLiveness {
  import opened Wrappers
  import opened SourceSlot

  predicate IsBy(step: Step, who: Who) {
    match who
    case LiveSource(id) => step.LiveStep? && step.id == id
    case NonLiveOwner => step.NonLiveStep?
  }

  /** Only `who` moves in the run, which leads from `s` to `s'`. */
  ghost predicate Leads(s: State, who: Who, run: seq<Step>, s': State) {
    (forall step :: step in run ==> IsBy(step, who)) && ValidRun(s, run) && Exec(s, run) == s'
  }

  lemma LeadsNowhere(s: State, who: Who)
    ensures Leads(s, who, [], s)
  {
  }

  lemma LeadsFirst(s: State, who: Who, step: Step, run: seq<Step>, s': State)
    requires Enabled(s, step) && IsBy(step, who) && Leads(Apply(s, step), who, run, s')
    ensures Leads(s, who, [step] + run, s')
  {
    hide Enabled, Apply;
    assert ([step] + run)[0] == step && ([step] + run)[1..] == run;
  }

  lemma {:induction false} ExecThen(s: State, a: seq<Step>, b: seq<Step>)
    requires ValidRun(s, a) && ValidRun(Exec(s, a), b)
    ensures ValidRun(s, a + b) && Exec(s, a + b) == Exec(Exec(s, a), b)
    decreases |a|
  {
    hide Enabled, Apply;
    if a == [] {
      assert a + b == b;
    } else {
      assert (a + b)[1..] == a[1..] + b;
      ExecThen(Apply(s, a[0]), a[1..], b);
    }
  }

  // ── The AutoDJ or relay task comes back ───────────────────────────────────

  /** It ended, or it waits, or is about to wait, for a permit that is not there. */
  predicate Waits(s: State) {
    var pc := s.nonlive.pc;
    || pc == After(NExited)
    || (!s.mount.permit && (
        || pc == Trying(NWaitBlocked) || pc == After(NParked)
        || (s.mount.preemptPending && (pc == After(NSwap) || (pc == After(NOutcome) && s.nonlive.cancelled)))))
  }

  /** It has the slot for the taking: nobody holds it, and the server is not stopping. */
  predicate MayTry(s: State) { !s.shutdown && !s.mount.connected && !s.nonlive.pc.Playing? }

  function StepsToClaim(pc: NonLivePc): nat {
    match pc
    case Trying(w) => (
      match w
      case NClaim => 1
      case NPrepare => 2
      case NLoad => 3
      case NWaitDone => 3
      case NTop => 4
      case NWaitLoad => 4
      case _ => 5)
    case After(e) => if e == NOutcome then 7 else if e == NSwap then 6 else 5
    case Playing(_) => 0
  }

  lemma ClaimComesCloser(s: State)
    requires MayTry(s) && !Waits(s)
    ensures Enabled(s, NonLiveStep(true))
    ensures var s' := Apply(s, NonLiveStep(true));
      && s'.live == s.live && s'.flavour == s.flavour
      && (s.mount.preemptPending || !s'.mount.preemptPending)
      && ((JustClaimed(s', NonLiveOwner) && s'.mount.connected && !s'.shutdown)
          || (MayTry(s') && !Waits(s') && StepsToClaim(s'.nonlive.pc) < StepsToClaim(s.nonlive.pc)))
  {
  }

  lemma {:induction false} ClaimsAlone(s: State) returns (run: seq<Step>, s': State)
    requires MayTry(s) && !Waits(s)
    ensures Leads(s, NonLiveOwner, run, s') && JustClaimed(s', NonLiveOwner)
    ensures s'.live == s.live && s'.flavour == s.flavour && s'.mount.connected && !s'.shutdown
    decreases StepsToClaim(s.nonlive.pc)
  {
    hide Waits, Apply, Enabled, StepsToClaim;
    ClaimComesCloser(s);
    var next := Apply(s, NonLiveStep(true));
    if JustClaimed(next, NonLiveOwner) {
      run, s' := [], next;
      LeadsNowhere(next, NonLiveOwner);
    } else {
      run, s' := ClaimsAlone(next);
    }
    LeadsFirst(s, NonLiveOwner, NonLiveStep(true), run, s');
    run := [NonLiveStep(true)] + run;
  }

  lemma WaitingStays(s: State, choice: bool)
    requires !s.shutdown && Waits(s) && Enabled(s, NonLiveStep(choice))
    ensures var s' := Apply(s, NonLiveStep(choice)); !s'.shutdown && Waits(s') && !JustClaimed(s', NonLiveOwner)
  {
  }

  lemma {:induction false} WaitingNeverClaims(s: State, run: seq<Step>, s': State)
    requires !s.shutdown && Waits(s) && Leads(s, NonLiveOwner, run, s')
    ensures Waits(s')
    decreases |run|
  {
    hide Waits, Apply, Enabled;
    if run != [] {
      assert run[0] in run && forall step :: step in run[1..] ==> step in run;
      WaitingStays(s, run[0].choice);
      WaitingNeverClaims(Apply(s, run[0]), run[1..], s');
    }
  }

  ghost predicate CanClaim(s: State) {
    exists run, s' :: Leads(s, NonLiveOwner, run, s') && JustClaimed(s', NonLiveOwner)
  }

  /** While the slot is free and nobody stops it, the task can claim again on its own
      exactly when it did not end and does not wait for a missing permit. In particular
      a parked or blocked task that was notified can. */
  lemma ClaimsAgainIff(s: State)
    requires MayTry(s)
    ensures CanClaim(s) <==> !Waits(s)
  {
    if Waits(s) && CanClaim(s) {
      var run, s' :| Leads(s, NonLiveOwner, run, s') && JustClaimed(s', NonLiveOwner);
      WaitingNeverClaims(s, run, s');
    }
    if !Waits(s) {
      var run, s' := ClaimsAlone(s);
    }
  }

  /** A parked task goes back to the top of its loop when it is woken; only a relay that
      was shut down ends instead. */
  lemma ParkedLeaves(s: State, step: Step)
    requires s.nonlive.pc == After(NParked) && Enabled(s, step)
    ensures var pc := Apply(s, step).nonlive.pc;
      && (pc != After(NParked) <==> step.NonLiveStep?)
      && (step.NonLiveStep? ==> pc == if s.flavour == Relay && s.shutdown then After(NExited) else Trying(NTop))
  {
  }

  function StepsToPlay(p: Pass): nat {
    match p
    case NSetKind => 4
    case NSetConnectedAt => 3
    case NSetCancel => 2
    case NReadToken => 1
    case _ => 0
  }

  /** On its way from the claim to playing, with its token if it stored one. */
  predicate Starting(s: State) {
    && s.nonlive.pc.Playing? && s.nonlive.pc.p in {NSetKind, NSetConnectedAt, NSetCancel, NReadToken}
    && (s.nonlive.pc.p != NSetKind ==> s.mount.kind == s.flavour)
    && (s.nonlive.pc.p == NReadToken ==> s.mount.cancel == Some(s.nonlive.token))
  }

  predicate Plays(s: State) {
    s.nonlive.pc == Playing(NRunning) && s.mount.kind == s.flavour && s.mount.cancel == Some(s.nonlive.token)
  }

  lemma PlayComesCloser(s: State)
    requires Starting(s)
    ensures Enabled(s, NonLiveStep(true))
    ensures var s' := Apply(s, NonLiveStep(true));
      s'.live == s.live && s'.flavour == s.flavour
      && (Plays(s') || (Starting(s') && StepsToPlay(s'.nonlive.pc.p) < StepsToPlay(s.nonlive.pc.p)))
  {
  }

  /** Once it has claimed, it plays, under its own kind tag and cancel token. */
  lemma {:induction false} PlaysAlone(s: State) returns (run: seq<Step>, s': State)
    requires Starting(s)
    ensures Leads(s, NonLiveOwner, run, s') && Plays(s') && s'.live == s.live
    decreases StepsToPlay(s.nonlive.pc.p)
  {
    hide Apply, Enabled, StepsToPlay, Plays;
    PlayComesCloser(s);
    var next := Apply(s, NonLiveStep(true));
    if Plays(next) {
      run, s' := [], next;
      LeadsNowhere(next, NonLiveOwner);
    } else {
      run, s' := PlaysAlone(next);
    }
    LeadsFirst(s, NonLiveOwner, NonLiveStep(true), run, s');
    run := [NonLiveStep(true)] + run;
  }

  lemma PlaysAgain(s: State) returns (run: seq<Step>, s': State)
    requires MayTry(s) && !Waits(s)
    ensures Leads(s, NonLiveOwner, run, s') && Plays(s') && s'.live == s.live
  {
    hide Waits, Apply, Enabled, Plays;
    var claim, claimed := ClaimsAlone(s);
    var play;
    play, s' := PlaysAlone(claimed);
    ExecThen(s, claim, play);
    run := claim + play;
  }

  // ── And it ends when it is told to ────────────────────────────────────────

  /** It panicked or will, or is an AutoDJ that waits where it does not look at its
      shutdown token. */
  predicate Deaf(s: State) {
    var pc := s.nonlive.pc;
    || pc == Playing(NPanicked)
    || (s.flavour == Relay && pc == Playing(NReadToken) && s.mount.cancel.None?)
    || (s.flavour != Relay && !s.mount.permit && (
        pc == After(NParked) || (pc == After(NSwap) && s.mount.preemptPending)))
  }

  function StepsToExit(pc: NonLivePc): nat {
    match pc
    case Trying(w) => (
      match w
      case NWaitBlocked => 2
      case NWaitLoad => 3
      case NClaim => 15
      case NPrepare => 16
      case NLoadKind => 17
      case NLoad => 18
      case _ => 1)
    case Playing(p) => (
      match p
      case NFree => 4
      case NClearKind => 5
      case NClearHeader => 6
      case NClearOverlay => 7
      case NClearConnectedAt => 8
      case NClearCancel => 9
      case NRunning => 10
      case NReadToken => 11
      case NSetCancel => 12
      case NSetConnectedAt => 13
      case NSetKind => 14
      case NPanicked => 0)
    case After(e) => if e == NOutcome then 1 else if e == NParked then 2 else if e == NSwap then 3 else 0
  }

  lemma ExitComesCloser(s: State)
    requires s.shutdown && !Deaf(s) && s.nonlive.pc != After(NExited)
    ensures Enabled(s, NonLiveStep(false))
    ensures var s' := Apply(s, NonLiveStep(false));
      s'.shutdown && !Deaf(s') && StepsToExit(s'.nonlive.pc) < StepsToExit(s.nonlive.pc)
  {
  }

  lemma {:induction false} ExitsAlone(s: State) returns (run: seq<Step>, s': State)
    requires s.shutdown && !Deaf(s)
    ensures Leads(s, NonLiveOwner, run, s') && s'.nonlive.pc == After(NExited)
    decreases StepsToExit(s.nonlive.pc)
  {
    hide Apply, Enabled, StepsToExit, Deaf;
    if s.nonlive.pc == After(NExited) {
      run, s' := [], s;
      LeadsNowhere(s, NonLiveOwner);
    } else {
      ExitComesCloser(s);
      run, s' := ExitsAlone(Apply(s, NonLiveStep(false)));
      LeadsFirst(s, NonLiveOwner, NonLiveStep(false), run, s');
      run := [NonLiveStep(false)] + run;
    }
  }

  lemma DeafStays(s: State, choice: bool)
    requires s.shutdown && Deaf(s) && Enabled(s, NonLiveStep(choice))
    ensures var s' := Apply(s, NonLiveStep(choice)); s'.shutdown && Deaf(s')
  {
  }

  lemma {:induction false} DeafNeverExits(s: State, run: seq<Step>, s': State)
    requires s.shutdown && Deaf(s) && Leads(s, NonLiveOwner, run, s')
    ensures Deaf(s')
    decreases |run|
  {
    hide Deaf, Apply, Enabled;
    if run != [] {
      assert run[0] in run && forall step :: step in run[1..] ==> step in run;
      DeafStays(s, run[0].choice);
      DeafNeverExits(Apply(s, run[0]), run[1..], s');
    }
  }

  ghost predicate CanExit(s: State) {
    exists run, s' :: Leads(s, NonLiveOwner, run, s') && s'.nonlive.pc == After(NExited)
  }

  /** A task that was shut down can end on its own exactly when it is not deaf to that. */
  lemma ExitsIff(s: State)
    requires s.shutdown
    ensures CanExit(s) <==> !Deaf(s)
  {
    if Deaf(s) && CanExit(s) {
      var run, s' :| Leads(s, NonLiveOwner, run, s') && s'.nonlive.pc == After(NExited);
      DeafNeverExits(s, run, s');
    }
    if !Deaf(s) {
      var run, s' := ExitsAlone(s);
    }
  }

  // ── Live sources ──────────────────────────────────────────────────────────

  function StepsToServe(a: Arrival): nat {
    match a
    case LClaim => 1
    case LAuth => 2
    case LPoll => 3
    case LCancel(_) => 4
    case LReadToken => 5
    case LStorePreempt => 6
    case LLoadKind => 7
    case LLoadConnected => 8
  }

  predicate Arrives(s: State, id: nat) { id in s.live && s.live[id].pc.Arriving? && !s.mount.connected }

  lemma ServeComesCloser(s: State, id: nat)
    requires Arrives(s, id)
    ensures Enabled(s, LiveStep(id, true))
    ensures var s' := Apply(s, LiveStep(id, true));
      && s'.nonlive == s.nonlive && s'.shutdown == s.shutdown && s'.flavour == s.flavour
      && (JustClaimed(s', LiveSource(id))
          || (Arrives(s', id) && StepsToServe(s'.live[id].pc.a) < StepsToServe(s.live[id].pc.a)))
  {
  }

  /** A live source with the right password gets a free slot, wherever it is in its
      handshake: it may have found the slot taken and preempted its holder. */
  lemma {:induction false} ServesAlone(s: State, id: nat) returns (run: seq<Step>, s': State)
    requires Arrives(s, id)
    ensures Leads(s, LiveSource(id), run, s') && JustClaimed(s', LiveSource(id))
    ensures s'.nonlive == s.nonlive && s'.shutdown == s.shutdown && s'.flavour == s.flavour
    decreases StepsToServe(s.live[id].pc.a)
  {
    hide Apply, Enabled, StepsToServe;
    ServeComesCloser(s, id);
    var next := Apply(s, LiveStep(id, true));
    if JustClaimed(next, LiveSource(id)) {
      run, s' := [], next;
      LeadsNowhere(next, LiveSource(id));
    } else {
      run, s' := ServesAlone(next, id);
    }
    LeadsFirst(s, LiveSource(id), LiveStep(id, true), run, s');
    run := [LiveStep(id, true)] + run;
  }

  function StepsToLeave(pc: LivePc): nat {
    match pc
    case Serving(t) => (
      match t
      case LSetCancel => 10
      case LSetConnectedAt => 9
      case LSetOverlay => 8
      case LRunning => 7
      case LFree => 6)
    case Leaving(d) => (
      match d
      case LClearCancel => 5
      case LClearConnectedAt => 4
      case LClearOverlay => 3
      case LClearHeader => 2
      case LNotify => 1)
    case _ => 0
  }

  predicate IsThere(s: State, id: nat) { id in s.live && (s.live[id].pc.Serving? || s.live[id].pc.Leaving?) }

  /** The source is over, a permit is stored, and its slot is free. */
  predicate Left(s: State, id: nat) { id in s.live && s.live[id].pc == Gone && s.mount.permit && !s.mount.connected }

  lemma LeaveComesCloser(s: State, id: nat)
    requires IsThere(s, id) && (s.live[id].pc.Leaving? ==> !s.mount.connected)
    ensures Enabled(s, LiveStep(id, false))
    ensures var s' := Apply(s, LiveStep(id, false));
      && s'.nonlive == s.nonlive && s'.shutdown == s.shutdown && s'.flavour == s.flavour
      && (Left(s', id)
          || (IsThere(s', id) && (s'.live[id].pc.Leaving? ==> !s'.mount.connected)
              && StepsToLeave(s'.live[id].pc) < StepsToLeave(s.live[id].pc)))
  {
  }

  lemma {:induction false} LeavesAlone(s: State, id: nat) returns (run: seq<Step>, s': State)
    requires IsThere(s, id) && (s.live[id].pc.Leaving? ==> !s.mount.connected)
    ensures Leads(s, LiveSource(id), run, s') && Left(s', id)
    ensures s'.nonlive == s.nonlive && s'.shutdown == s.shutdown && s'.flavour == s.flavour
    decreases StepsToLeave(s.live[id].pc)
  {
    hide Apply, Enabled, StepsToLeave, Left;
    LeaveComesCloser(s, id);
    var next := Apply(s, LiveStep(id, false));
    if Left(next, id) {
      run, s' := [], next;
      LeadsNowhere(next, LiveSource(id));
    } else {
      run, s' := LeavesAlone(next, id);
    }
    LeadsFirst(s, LiveSource(id), LiveStep(id, false), run, s');
    run := [LiveStep(id, false)] + run;
  }

  /** The whole of a preemption: the task is parked, the source that preempted it claims,
      serves and disconnects, and the task plays again. */
  lemma ParkedPlaysAgain(s: State, id: nat) returns (run: seq<Step>, s': State)
    requires s.nonlive.pc == After(NParked) && !s.shutdown && Arrives(s, id)
    ensures ValidRun(s, run) && Exec(s, run) == s' && Plays(s')
    ensures exists k: nat :: k <= |run| && ValidRun(s, run[..k]) && JustClaimed(Exec(s, run[..k]), LiveSource(id))
  {
    hide Apply, Enabled;
    var serve, served := ServesAlone(s, id);
    var leave, left := LeavesAlone(served, id);
    var play;
    play, s' := PlaysAgain(left);
    ExecThen(s, serve, leave);
    ExecThen(s, serve + leave, play);
    run := serve + leave + play;
    assert run[..|serve|] == serve;
  }
}
