/** What each procedure of the source slot does when nobody gets in between: its steps,
    one after the other, come to one change of the mount that is written out here. */
module SlotAlone {
  import opened Wrappers
  import opened SourceSlot
  import opened SlotLiveness

  predicate Goes(s: State, step: Step, t: State) { Enabled(s, step) && Apply(s, step) == t }

  lemma {:induction false} Chain(states: seq<State>, run: seq<Step>)
    requires |states| == |run| + 1
    requires forall i :: 0 <= i < |run| ==> Goes(states[i], run[i], states[i + 1])
    ensures ValidRun(states[0], run) && Exec(states[0], run) == states[|run|]
    decreases |run|
  {
    hide Enabled, Apply;
    if run != [] {
      assert Goes(states[0], run[0], states[1]);
      forall i | 0 <= i < |run| - 1 ensures Goes(states[1..][i], run[1..][i], states[1..][i + 1]) {
        assert Goes(states[i + 1], run[i + 1], states[i + 2]);
      }
      Chain(states[1..], run[1..]);
    }
  }

  /** A run of `n` steps of one task, with whatever choices. */
  predicate Own(run: seq<Step>, who: Who, n: nat) { |run| == n && forall i :: 0 <= i < n ==> IsBy(run[i], who) }

  /** The run takes `s` to `t`. */
  ghost predicate Comes(s: State, run: seq<Step>, t: State) { ValidRun(s, run) && Exec(s, run) == t }

  lemma ComesThen(s: State, run: seq<Step>, n: nat, t: State, u: State)
    requires n <= |run| && Comes(s, run[..n], t) && Comes(t, run[n..], u)
    ensures Comes(s, run, u)
  {
    ExecThen(s, run[..n], run[n..]);
    assert run == run[..n] + run[n..];
  }

  // ── Live sources ──────────────────────────────────────────────────────────

  /** What a live source sees: the mount, the tokens and itself. */
  datatype LiveView = LiveView(m: Mount, k: Tokens, t: LiveTask)

  predicate IsAt(s: State, id: nat, pc: LivePc) { id in s.live && s.live[id].pc == pc }

  function LiveViewOf(s: State, id: nat): LiveView
    requires id in s.live
  {
    LiveView(s.mount, s.tokens, s.live[id])
  }

  /** The state `s` but for what that source sees. */
  function WithLive(s: State, id: nat, v: LiveView): State {
    s.(mount := v.m, tokens := v.k, live := s.live[id := v.t])
  }

  predicate LiveFollows(u: LiveView, v: LiveView, choice: bool) {
    && !u.t.pc.Gone? && v.m == LiveStore(u.m, u.t) && v.k == LiveTokens(u.m, u.k, u.t.pc)
    && v.t == LiveTask(LiveGoto(u.m, u.t.pc, choice), if u.t.pc == Arriving(LClaim) then u.k.next else u.t.token)
  }

  lemma LiveMoves(s: State, id: nat, u: LiveView, v: LiveView, step: Step)
    requires IsBy(step, LiveSource(id)) && LiveFollows(u, v, step.choice)
    ensures Goes(WithLive(s, id, u), step, WithLive(s, id, v))
  {
    hide LiveStore, LiveTokens, LiveGoto;
    assert s.live[id := u.t][id := v.t] == s.live[id := v.t];
  }

  /** The source's own steps, one after the other, with nothing in between. */
  lemma LiveChain(s: State, id: nat, views: seq<LiveView>, run: seq<Step>)
    requires id in s.live && views != [] && views[0] == LiveViewOf(s, id) && Own(run, LiveSource(id), |views| - 1)
    requires forall i :: 0 <= i < |run| ==> LiveFollows(views[i], views[i + 1], run[i].choice)
    ensures Comes(s, run, WithLive(s, id, views[|run|]))
  {
    hide LiveFollows, Goes;
    var states := seq(|views|, i requires 0 <= i < |views| => WithLive(s, id, views[i]));
    forall i | 0 <= i < |run| ensures Goes(states[i], run[i], states[i + 1]) {
      LiveMoves(s, id, views[i], views[i + 1], run[i]);
    }
    assert states[0] == s;
    Chain(states, run);
  }

  /** A slot that is free, or is held by another live source, is left alone until the
      password was checked. */
  lemma LiveChecks(s: State, id: nat, run: seq<Step>)
    requires IsAt(s, id, Arriving(LLoadConnected))
    requires s.mount.connected ==> s.mount.kind == NoKind || s.mount.kind == Live
    requires Own(run, LiveSource(id), if s.mount.connected then 3 else 2)
    ensures var v := LiveViewOf(s, id);
      Comes(s, run, WithLive(s, id,
        v.(t := v.t.(pc := if run[|run| - 1].choice then Arriving(LClaim) else Gone))))
  {
    hide Comes;
    var v := LiveViewOf(s, id);
    var checking := v.(t := v.t.(pc := Arriving(LAuth)));
    var checked := v.(t := v.t.(pc := if run[|run| - 1].choice then Arriving(LClaim) else Gone));
    if s.mount.connected {
      LiveChain(s, id, [v, v.(t := v.t.(pc := Arriving(LLoadKind))), checking, checked], run);
    } else {
      LiveChain(s, id, [v, checking, checked], run);
    }
  }

  /** An AutoDJ or relay is told to give way, and its token is cancelled. */
  lemma LivePreempts(s: State, id: nat, run: seq<Step>)
    requires IsAt(s, id, Arriving(LLoadConnected)) && s.mount.connected
    requires s.mount.kind == AutoDj || s.mount.kind == Relay
    requires Own(run, LiveSource(id), 5)
    ensures var victims := match s.mount.cancel case Some(t) => {t} case None => {};
      Comes(s, run, WithLive(s, id, LiveView(
        s.mount.(preemptPending := true),
        s.tokens.(cancelled := s.tokens.cancelled + victims),
        s.live[id].(pc := Arriving(LPoll)))))
  {
    hide Comes;
    var victims := match s.mount.cancel case Some(t) => {t} case None => {};
    var v := LiveViewOf(s, id);
    var flagged := v.(m := v.m.(preemptPending := true));
    var k := s.tokens.(cancelled := s.tokens.cancelled + victims);
    assert s.mount.cancel.None? ==> k == s.tokens;
    LiveChain(s, id, [
      v, v.(t := v.t.(pc := Arriving(LLoadKind))), v.(t := v.t.(pc := Arriving(LStorePreempt))),
      flagged.(t := v.t.(pc := Arriving(LReadToken))), flagged.(t := v.t.(pc := Arriving(LCancel(v.m.cancel)))),
      flagged.(k := k, t := v.t.(pc := Arriving(LPoll)))], run);
  }

  /** Then it waits for the slot to be free, or gives up, and checks the password. */
  lemma LivePolls(s: State, id: nat, run: seq<Step>)
    requires IsAt(s, id, Arriving(LPoll)) && Own(run, LiveSource(id), 1)
    ensures var v := LiveViewOf(s, id);
      Comes(s, run, WithLive(s, id, v.(t := v.t.(
        pc := if !s.mount.connected then Arriving(LAuth) else if run[0].choice then Gone else Arriving(LPoll)))))
  {
    hide Comes;
    var v := LiveViewOf(s, id);
    LiveChain(s, id, [v, v.(t := v.t.(
      pc := if !s.mount.connected then Arriving(LAuth) else if run[0].choice then Gone else Arriving(LPoll)))], run);
  }

  /** A claim that fails changes nothing. */
  lemma LiveLoses(s: State, id: nat, run: seq<Step>)
    requires IsAt(s, id, Arriving(LClaim)) && s.mount.connected && Own(run, LiveSource(id), 1)
    ensures ValidRun(s, run)
    ensures var t := Exec(s, run);
      t.mount == s.mount && t.tokens == s.tokens && t.nonlive == s.nonlive && IsAt(t, id, Gone)
  {
    var v := LiveViewOf(s, id);
    LiveChain(s, id, [v, v.(t := LiveTask(Gone, v.k.next))], run);
  }

  /** One that succeeds takes a fresh token, and stores it with connect time and overlay.
      The kind tag stays as it was. */
  lemma LiveClaims(s: State, id: nat, run: seq<Step>)
    requires IsAt(s, id, Arriving(LClaim)) && !s.mount.connected
    requires Own(run, LiveSource(id), 4)
    ensures var n := s.tokens.next;
      Comes(s, run, WithLive(s, id, LiveView(
        s.mount.(connected := true, cancel := Some(n), connectedAt := true, overlay := true),
        s.tokens.(next := n + 1),
        LiveTask(Serving(LRunning), n))))
  {
    hide Comes;
    var n, m := s.tokens.next, s.mount.(connected := true);
    var k := s.tokens.(next := n + 1);
    LiveChain(s, id, [
      LiveViewOf(s, id),
      LiveView(m, k, LiveTask(Serving(LSetCancel), n)),
      LiveView(m.(cancel := Some(n)), k, LiveTask(Serving(LSetConnectedAt), n)),
      LiveView(m.(cancel := Some(n), connectedAt := true), k, LiveTask(Serving(LSetOverlay), n)),
      LiveView(m.(cancel := Some(n), connectedAt := true, overlay := true), k, LiveTask(Serving(LRunning), n))], run);
  }

  /** The end of a connection clears all five fields and stores a permit. */
  lemma LiveLeaves(s: State, id: nat, run: seq<Step>)
    requires IsAt(s, id, Serving(LRunning)) && Own(run, LiveSource(id), 7)
    ensures Comes(s, run, WithLive(s, id, LiveView(
        s.mount.(
          connected := false, cancel := None, connectedAt := false, overlay := false, header := false, permit := true),
        s.tokens, s.live[id].(pc := Gone))))
  {
    hide Comes;
    var v := LiveViewOf(s, id);
    var m0 := v.m.(connected := false);
    var m1 := m0.(cancel := None);
    var m2 := m1.(connectedAt := false);
    var m3 := m2.(overlay := false);
    var m4 := m3.(header := false);
    LiveChain(s, id, [
      v, v.(t := v.t.(pc := Serving(LFree))),
      v.(m := m0, t := v.t.(pc := Leaving(LClearCancel))), v.(m := m1, t := v.t.(pc := Leaving(LClearConnectedAt))),
      v.(m := m2, t := v.t.(pc := Leaving(LClearOverlay))), v.(m := m3, t := v.t.(pc := Leaving(LClearHeader))),
      v.(m := m4, t := v.t.(pc := Leaving(LNotify))), v.(m := m4.(permit := true), t := v.t.(pc := Gone))], run);
  }

  // ── The AutoDJ or relay task ──────────────────────────────────────────────

  /** What the task sees: the mount, the tokens and itself. */
  datatype View = View(m: Mount, k: Tokens, t: NonLiveTask)

  function ViewOf(s: State): View { View(s.mount, s.tokens, s.nonlive) }

  /** The state `s` but for that. */
  function With(s: State, v: View): State { s.(mount := v.m, tokens := v.k, nonlive := v.t) }

  function At(v: View, pc: NonLivePc): View { v.(t := v.t.(pc := pc)) }

  predicate Follows(u: View, v: View, flavour: Kind, stop: bool, choice: bool) {
    var claims := u.t.pc == Trying(NClaim) && !u.m.connected;
    && NonLiveEnabled(State(u.m, u.k, map[], u.t, flavour, stop)) && v.m == NonLiveStore(u.m, u.t, flavour, stop)
    && v.k == (if claims then u.k.(next := u.k.next + 1) else u.k)
    && v.t == NonLiveTask(
         NonLiveGoto(u.m, u.t, flavour, stop, choice), if claims then u.k.next else u.t.token,
         PassCancelled(u.m, u.k, u.t, stop, choice))
  }

  lemma Moves(s: State, u: View, v: View, step: Step)
    requires IsBy(step, NonLiveOwner) && Follows(u, v, s.flavour, s.shutdown, step.choice)
    ensures Goes(With(s, u), step, With(s, v))
  {
    hide NonLiveStore, NonLiveGoto, PassCancelled;
  }

  /** The task's own steps, one after the other, with nothing in between. */
  lemma OwnChain(s: State, views: seq<View>, run: seq<Step>)
    requires views != [] && views[0] == ViewOf(s) && Own(run, NonLiveOwner, |views| - 1)
    requires forall i :: 0 <= i < |run| ==> Follows(views[i], views[i + 1], s.flavour, s.shutdown, run[i].choice)
    ensures Comes(s, run, With(s, views[|run|]))
  {
    hide Follows, Goes;
    var states := seq(|views|, i requires 0 <= i < |views| => With(s, views[i]));
    forall i | 0 <= i < |run| ensures Goes(states[i], run[i], states[i + 1]) {
      Moves(s, views[i], views[i + 1], run[i]);
    }
    assert states[0] == s;
    Chain(states, run);
  }

  lemma OwnThree(s: State, v1: View, v2: View, v3: View, run: seq<Step>)
    requires Own(run, NonLiveOwner, 3)
    requires Follows(ViewOf(s), v1, s.flavour, s.shutdown, run[0].choice)
    requires Follows(v1, v2, s.flavour, s.shutdown, run[1].choice)
    requires Follows(v2, v3, s.flavour, s.shutdown, run[2].choice)
    ensures Comes(s, run, With(s, v3))
  {
    hide Follows, Comes;
    OwnChain(s, [ViewOf(s), v1, v2, v3], run);
  }

  lemma OwnFour(s: State, v1: View, v2: View, v3: View, v4: View, run: seq<Step>)
    requires Own(run, NonLiveOwner, 4)
    requires Follows(ViewOf(s), v1, s.flavour, s.shutdown, run[0].choice)
    requires Follows(v1, v2, s.flavour, s.shutdown, run[1].choice)
    requires Follows(v2, v3, s.flavour, s.shutdown, run[2].choice)
    requires Follows(v3, v4, s.flavour, s.shutdown, run[3].choice)
    ensures Comes(s, run, With(s, v4))
  {
    hide Follows, Comes;
    OwnChain(s, [ViewOf(s), v1, v2, v3, v4], run);
  }

  /** A free slot is tried for once there is something to play; a relay always has. With
      nothing to play an AutoDJ tries again later, or ends if it could not look. */
  lemma Tries(s: State, run: seq<Step>)
    requires s.nonlive.pc == Trying(NTop) && !s.shutdown && !s.mount.connected && Own(run, NonLiveOwner, 4)
    requires s.flavour != Relay && !run[2].choice
    ensures Comes(s, run, With(s, At(ViewOf(s), if run[3].choice then Trying(NTop) else After(NExited))))
  {
    hide Comes;
    var v := ViewOf(s);
    OwnChain(s, [
      v, At(v, Trying(NLoad)), At(v, Trying(NPrepare)), At(v, Trying(NIdle)),
      At(v, if run[3].choice then Trying(NTop) else After(NExited))], run);
  }

  /** One store on the slot while it is held. */
  lemma PassTurn(u: View, p: Pass, v: View, flavour: Kind, stop: bool, choice: bool)
    requires u.t.pc == Playing(p) && p != NReadToken && p != NRunning && p != NPanicked && v.k == u.k
    requires v.m == PassStore(u.m, p, u.t.token, flavour) && v.t == u.t.(pc := PassGoto(u.m, p, flavour))
    ensures Follows(u, v, flavour, stop, choice)
  {
    hide PassStore, PassGoto;
  }

  lemma EndTurn(u: View, v: View, flavour: Kind, stop: bool, choice: bool)
    requires u.t.pc == Playing(NRunning) && v.k == u.k && v.m == u.m
    requires v.t == u.t.(
      pc := Playing(NClearCancel), cancelled := choice && (u.t.token in u.k.cancelled || stop))
    ensures Follows(u, v, flavour, stop, choice)
  {
  }

  lemma Prepares(s: State, run: seq<Step>)
    requires s.nonlive.pc == Trying(NTop) && !s.shutdown && !s.mount.connected && Own(run, NonLiveOwner, 3)
    requires s.flavour == Relay || run[2].choice
    ensures Comes(s, run, With(s, At(ViewOf(s), Trying(NClaim))))
  {
    hide Comes;
    var v := ViewOf(s);
    OwnChain(s, [v, At(v, Trying(NLoad)), At(v, Trying(NPrepare)), At(v, Trying(NClaim))], run);
  }

  lemma Takes(s: State, run: seq<Step>)
    requires s.nonlive.pc == Trying(NClaim) && !s.mount.connected && Own(run, NonLiveOwner, 2)
    ensures var n := s.tokens.next;
      Comes(s, run, With(s, View(
        s.mount.(connected := true, kind := s.flavour), s.tokens.(next := n + 1),
        NonLiveTask(Playing(NSetConnectedAt), n, false))))
  {
    hide Comes;
    var n, m := s.tokens.next, s.mount.(connected := true);
    var k := s.tokens.(next := n + 1);
    OwnChain(s, [
      ViewOf(s), View(m, k, NonLiveTask(Playing(NSetKind), n, false)),
      View(m.(kind := s.flavour), k, NonLiveTask(Playing(NSetConnectedAt), n, false))], run);
  }

  lemma Stores(s: State, run: seq<Step>)
    requires s.nonlive.pc == Playing(NSetConnectedAt) && Own(run, NonLiveOwner, 3)
    ensures Comes(s, run, With(s, View(
        s.mount.(connectedAt := true, cancel := Some(s.nonlive.token)), s.tokens,
        s.nonlive.(pc := Playing(NRunning), cancelled := false))))
  {
    hide Comes;
    var v, dated := ViewOf(s), s.mount.(connectedAt := true);
    var m := dated.(cancel := Some(s.nonlive.token));
    OwnThree(s, At(v, Playing(NSetCancel)).(m := dated), At(v, Playing(NReadToken)).(m := m),
      v.(m := m, t := v.t.(pc := Playing(NRunning), cancelled := false)), run);
  }

  /** With something to play it stores kind, connect time and a fresh token, and plays. */
  lemma Claims(s: State, run: seq<Step>)
    requires s.nonlive.pc == Trying(NTop) && !s.shutdown && !s.mount.connected && Own(run, NonLiveOwner, 8)
    requires s.flavour == Relay || run[2].choice
    ensures var n := s.tokens.next;
      Comes(s, run, With(s, View(
        s.mount.(connected := true, kind := s.flavour, connectedAt := true, cancel := Some(n)),
        s.tokens.(next := n + 1), NonLiveTask(Playing(NRunning), n, false))))
  {
    hide Comes, IsBy;
    var n := s.tokens.next;
    var t := With(s, At(ViewOf(s), Trying(NClaim)));
    var u := With(t, View(
      s.mount.(connected := true, kind := s.flavour), s.tokens.(next := n + 1),
      NonLiveTask(Playing(NSetConnectedAt), n, false)));
    var v := With(u, View(
      u.mount.(connectedAt := true, cancel := Some(n)), u.tokens, NonLiveTask(Playing(NRunning), n, false)));
    Prepares(s, run[..3]);
    Takes(t, run[3..][..2]);
    Stores(u, run[3..][2..]);
    ComesThen(t, run[3..], 2, u, v);
    ComesThen(s, run, 3, t, v);
  }

  /** A claim that fails leaves the mount alone and goes back to the top. */
  lemma Loses(s: State, run: seq<Step>)
    requires s.nonlive.pc == Trying(NClaim) && s.mount.connected && Own(run, NonLiveOwner, 1)
    ensures Comes(s, run, With(s, ViewOf(s).(t := NonLiveTask(Trying(NTop), s.nonlive.token, false))))
  {
    hide Comes;
    OwnChain(s, [ViewOf(s), ViewOf(s).(t := NonLiveTask(Trying(NTop), s.nonlive.token, false))], run);
  }

  /** A slot that is taken is waited for, unless a relay finds it tagged as a relay's. */
  lemma WaitsForSlot(s: State, run: seq<Step>)
    requires s.nonlive.pc == Trying(NTop) && !s.shutdown && s.mount.connected
    requires Own(run, NonLiveOwner, if s.flavour == Relay && s.mount.kind != Relay then 4 else 3)
    ensures Comes(s, run, With(s, At(ViewOf(s),
      Trying(if s.flavour == Relay && s.mount.kind == Relay then NPrepare else NWaitBlocked))))
  {
    hide Comes;
    var v := ViewOf(s);
    if s.flavour != Relay {
      OwnChain(s, [v, At(v, Trying(NLoad)), At(v, Trying(NWaitLoad)), At(v, Trying(NWaitBlocked))], run);
    } else if s.mount.kind != Relay {
      OwnChain(s, [
        v, At(v, Trying(NLoad)), At(v, Trying(NLoadKind)), At(v, Trying(NWaitLoad)), At(v, Trying(NWaitBlocked))], run);
    } else {
      OwnChain(s, [v, At(v, Trying(NLoad)), At(v, Trying(NLoadKind)), At(v, Trying(NPrepare))], run);
    }
  }

  /** A permit that wakes the wait is used up. If the slot is free then it goes on, else
      it waits again. */
  lemma Wakes(s: State, run: seq<Step>)
    requires s.nonlive.pc == Trying(NWaitBlocked) && !s.shutdown && s.mount.permit
    requires Own(run, NonLiveOwner, if s.mount.connected then 2 else 3)
    ensures Comes(s, run, With(s, At(ViewOf(s), Trying(if s.mount.connected then NWaitBlocked else NPrepare)).(
      m := s.mount.(permit := false))))
  {
    hide Comes;
    var v := ViewOf(s);
    var w := v.(m := s.mount.(permit := false));
    if s.mount.connected {
      OwnChain(s, [v, At(w, Trying(NWaitLoad)), At(w, Trying(NWaitBlocked))], run);
    } else {
      OwnChain(s, [v, At(w, Trying(NWaitLoad)), At(w, Trying(NWaitDone)), At(w, Trying(NPrepare))], run);
    }
  }

  lemma EndsPass(s: State, run: seq<Step>, cut: bool, t: State)
    requires s.nonlive.pc == Playing(NRunning) && Own(run, NonLiveOwner, 3)
    requires cut <==> run[0].choice && (s.nonlive.token in s.tokens.cancelled || s.shutdown)
    requires t == With(s, View(
      s.mount.(cancel := None, connectedAt := false), s.tokens,
      s.nonlive.(pc := Playing(NClearOverlay), cancelled := cut)))
    ensures Comes(s, run, t)
  {
    hide Comes, Follows;
    var v := ViewOf(s);
    var e := v.(t := v.t.(pc := Playing(NClearCancel), cancelled := cut));
    var e1 := At(e, Playing(NClearConnectedAt)).(m := v.m.(cancel := None));
    var e2 := At(e, Playing(NClearOverlay)).(m := v.m.(cancel := None, connectedAt := false));
    EndTurn(v, e, s.flavour, s.shutdown, run[0].choice);
    PassTurn(e, NClearCancel, e1, s.flavour, s.shutdown, run[1].choice);
    PassTurn(e1, NClearConnectedAt, e2, s.flavour, s.shutdown, run[2].choice);
    OwnThree(s, e, e1, e2, run);
  }

  lemma ClearsSlot(s: State, run: seq<Step>)
    requires s.nonlive.pc == Playing(NClearOverlay) && Own(run, NonLiveOwner, 4)
    ensures Comes(s, run, With(s, At(ViewOf(s), After(NOutcome)).(
      m := s.mount.(overlay := false, header := false, kind := NoKind, connected := false))))
  {
    hide Comes, Follows;
    var v := ViewOf(s);
    var v1 := At(v, Playing(NClearHeader)).(m := v.m.(overlay := false));
    var v2 := At(v, Playing(NClearKind)).(m := v1.m.(header := false));
    var v3 := At(v, Playing(NFree)).(m := v2.m.(kind := NoKind));
    var v4 := At(v, After(NOutcome)).(m := v3.m.(connected := false));
    PassTurn(v, NClearOverlay, v1, s.flavour, s.shutdown, run[0].choice);
    PassTurn(v1, NClearHeader, v2, s.flavour, s.shutdown, run[1].choice);
    PassTurn(v2, NClearKind, v3, s.flavour, s.shutdown, run[2].choice);
    PassTurn(v3, NFree, v4, s.flavour, s.shutdown, run[3].choice);
    OwnFour(s, v1, v2, v3, v4, run);
  }

  /** The end of a pass clears all six fields. The pass was cancelled only if its own
      token or the shutdown token was. */
  lemma Releases(s: State, run: seq<Step>)
    requires s.nonlive.pc == Playing(NRunning) && Own(run, NonLiveOwner, 7)
    ensures Comes(s, run, With(s, View(
        s.mount.(
          cancel := None, connectedAt := false, overlay := false, header := false, kind := NoKind, connected := false),
        s.tokens,
        s.nonlive.(
          pc := After(NOutcome),
          cancelled := run[0].choice && (s.nonlive.token in s.tokens.cancelled || s.shutdown)))))
  {
    assert IsBy(run[0], NonLiveOwner);
    hide Comes, IsBy;
    var cut: bool :| cut <==> run[0].choice && (s.nonlive.token in s.tokens.cancelled || s.shutdown);
    var t: State :| t == With(s, View(
      s.mount.(cancel := None, connectedAt := false), s.tokens,
      s.nonlive.(pc := Playing(NClearOverlay), cancelled := cut)));
    EndsPass(s, run[..3], cut, t);
    ClearsSlot(t, run[3..]);
    ComesThen(s, run, 3, t, With(t, At(ViewOf(t), After(NOutcome)).(
      m := t.mount.(overlay := false, header := false, kind := NoKind, connected := false))));
  }

  /** A token that was gone ends an AutoDJ's pass as cancelled and panics a relay. */
  lemma FindsNoToken(s: State, run: seq<Step>)
    requires s.nonlive.pc == Playing(NReadToken) && s.mount.cancel.None? && Own(run, NonLiveOwner, 1)
    ensures Comes(s, run, With(s, ViewOf(s).(t := s.nonlive.(
      pc := Playing(if s.flavour == Relay then NPanicked else NClearCancel), cancelled := true))))
  {
    hide Comes;
    OwnChain(s, [ViewOf(s), ViewOf(s).(t := s.nonlive.(
      pc := Playing(if s.flavour == Relay then NPanicked else NClearCancel), cancelled := true))], run);
  }

  /** After a pass that was not cancelled an AutoDJ starts over or is through; a relay
      connects again unless it was shut down. */
  lemma GoesOn(s: State, run: seq<Step>)
    requires s.nonlive.pc == After(NOutcome) && !s.nonlive.cancelled && Own(run, NonLiveOwner, 1)
    ensures Comes(s, run, With(s, At(ViewOf(s),
      if (if s.flavour == Relay then s.shutdown else !run[0].choice) then After(NExited) else Trying(NTop))))
  {
    hide Comes;
    OwnChain(s, [ViewOf(s), At(ViewOf(s),
      if (if s.flavour == Relay then s.shutdown else !run[0].choice) then After(NExited) else Trying(NTop))], run);
  }

  /** After one that was cancelled it parks exactly if it was preempted, which uses up
      the flag, and else starts over. */
  lemma Parks(s: State, run: seq<Step>)
    requires s.nonlive.pc == After(NOutcome) && s.nonlive.cancelled && !s.shutdown && Own(run, NonLiveOwner, 2)
    ensures Comes(s, run, With(s, At(ViewOf(s), if s.mount.preemptPending then After(NParked) else Trying(NTop)).(
      m := s.mount.(preemptPending := false))))
  {
    hide Comes;
    var v := ViewOf(s);
    OwnChain(s, [v, At(v, After(NSwap)), At(v, if s.mount.preemptPending then After(NParked) else Trying(NTop)).(
      m := s.mount.(preemptPending := false))], run);
  }

  /** The permit that wakes a parked task is used up. */
  lemma Resumes(s: State, run: seq<Step>)
    requires s.nonlive.pc == After(NParked) && s.mount.permit && !(s.flavour == Relay && s.shutdown)
    requires Own(run, NonLiveOwner, 1)
    ensures Comes(s, run, With(s, At(ViewOf(s), Trying(NTop)).(m := s.mount.(permit := false))))
  {
    hide Comes;
    OwnChain(s, [ViewOf(s), At(ViewOf(s), Trying(NTop)).(m := s.mount.(permit := false))], run);
  }

  /** A shutdown is looked at first, and leaves the permit: at the top, in the wait, after
      a cancelled pass, and by a parked relay. */
  lemma Stops(s: State, run: seq<Step>)
    requires s.shutdown && Own(run, NonLiveOwner, if s.nonlive.pc == Trying(NWaitBlocked) then 2 else 1)
    requires s.nonlive.pc in {Trying(NTop), Trying(NWaitBlocked), Trying(NWaitDone), After(NOutcome), After(NParked)}
    requires s.nonlive.pc == After(NOutcome) ==> s.nonlive.cancelled
    requires s.nonlive.pc == After(NParked) ==> s.flavour == Relay
    ensures Comes(s, run, With(s, At(ViewOf(s), After(NExited))))
  {
    hide Comes;
    var v := ViewOf(s);
    if s.nonlive.pc == Trying(NWaitBlocked) {
      OwnChain(s, [v, At(v, Trying(NWaitDone)), At(v, After(NExited))], run);
    } else {
      OwnChain(s, [v, At(v, After(NExited))], run);
    }
  }

  /** A task that ended stays ended until it is started anew. */
  lemma EndedStays(s: State, step: Step)
    requires s.nonlive.pc == After(NExited) && Enabled(s, step)
    ensures !step.NonLiveStep?
    ensures Apply(s, step).nonlive == if step.Respawn? then NonLiveTask(Trying(NTop), 0, false) else s.nonlive
    ensures step.Respawn? ==> !Apply(s, step).shutdown
  {
  }

  // ── What comes from outside ───────────────────────────────────────────────

  /** On a fresh mount every field is clear, and the task is at the top of its loop. */
  lemma FreshMount(flavour: Kind)
    ensures var s := Init(flavour);
      && s.mount.cancel == None && s.mount.kind == NoKind && !s.mount.connected && !s.mount.connectedAt
      && !s.mount.overlay && !s.mount.header && !s.mount.preemptPending && !s.mount.permit
      && s.live == map[] && s.nonlive.pc == Trying(NTop) && s.flavour == flavour && !s.shutdown
      && s.tokens == Tokens(0, {}) && s.nonlive == NonLiveTask(Trying(NTop), 0, false)
  {
  }

  /** A kick cancels the token in place and can come while there is one; a shutdown can
      come at any time; whoever streams may store header bytes; a source that connects to a
      mount that is there looks at the slot first, one that creates it claims at once. */
  lemma FromOutside(s: State, id: nat)
    ensures Goes(s, Shutdown, s.(shutdown := true))
    ensures Enabled(s, Kick) <==> s.mount.cancel.Some?
    ensures s.mount.cancel.Some? ==>
      Goes(s, Kick, s.(tokens := s.tokens.(cancelled := s.tokens.cancelled + {s.mount.cancel.value})))
    ensures IsAt(s, id, Serving(LRunning)) ==> Goes(s, LiveHeader(id), s.(mount := s.mount.(header := true)))
    ensures s.nonlive.pc == Playing(NRunning) ==> Goes(s, NonLiveHeader, s.(mount := s.mount.(header := true)))
    ensures id !in s.live ==>
      && Goes(s, Connect(id, true), s.(live := s.live[id := LiveTask(Arriving(LLoadConnected), 0)]))
      && Goes(s, Connect(id, false), s.(live := s.live[id := LiveTask(Arriving(LClaim), 0)]))
  {
  }
}
