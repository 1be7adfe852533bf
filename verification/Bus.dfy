/** The fan-out bus: a broadcast channel plus a byte-bounded history, both
    changed only under the history lock. */
module Bus {
  import opened Bytes

  datatype Payload = Encoded(codec: string, data: seq<byte>) | Decoded(samples: seq<real>)

  datatype Packet = Packet(payload: Payload, pts: nat, sequence: nat)

  /** The encoded bytes of a packet; a decoded one carries none. */
  function DataIn(p: Packet): seq<byte> { if p.payload.Encoded? then p.payload.data else [] }

  function DataOf(packets: seq<Packet>): seq<byte> {
    if packets == [] then [] else DataIn(packets[0]) + DataOf(packets[1..])
  }

  function PacketBytes(p: Packet): nat {
    match p.payload
    case Encoded(_, data) => |data|
    case Decoded(_) => 0
  }

  function Total(ps: seq<Packet>): nat {
    if ps == [] then 0 else PacketBytes(ps[0]) + Total(ps[1..])
  }

  lemma {:induction false} TotalConcat(a: seq<Packet>, b: seq<Packet>)
    ensures Total(a + b) == Total(a) + Total(b)
  {
    if a == [] {
      assert a + b == b;
    } else {
      assert (a + b)[1..] == a[1..] + b;
      TotalConcat(a[1..], b);
    }
  }

  lemma {:induction false} DataOfConcat(a: seq<Packet>, b: seq<Packet>)
    ensures DataOf(a + b) == DataOf(a) + DataOf(b)
  {
    if a == [] {
      assert a + b == b;
    } else {
      assert (a + b)[1..] == a[1..] + b;
      DataOfConcat(a[1..], b);
    }
  }

  /** The running total counts the encoded bytes, one by one. */
  lemma {:induction false} TotalIsData(ps: seq<Packet>)
    ensures Total(ps) == |DataOf(ps)|
  {
    if ps != [] { TotalIsData(ps[1..]); }
  }

  // ── The history as a function of the log ──────────────────────────────────

  ghost predicate IsSuffix(log: seq<Packet>, h: seq<Packet>) {
    |h| <= |log| && h == log[|log| - |h|..]
  }

  ghost predicate OverFrom(log: seq<Packet>, k: nat, cap: nat)
    requires k <= |log|
  {
    Total(log[k..]) > cap
  }

  /** Every longer suffix of the log is over the cap. */
  ghost predicate Maximal(log: seq<Packet>, h: seq<Packet>, cap: nat) {
    forall k :: 0 <= k < |log| - |h| ==> OverFrom(log, k, cap)
  }

  /** `h` is the longest suffix of the log within the cap, or the last packet
      alone when that one is over the cap by itself. */
  ghost predicate IsHistory(log: seq<Packet>, h: seq<Packet>, cap: nat) {
    && IsSuffix(log, h)
    && (log != [] ==> h != [])
    && (Total(h) <= cap || |h| == 1)
    && Maximal(log, h, cap)
  }

  /** Counted in bytes: more than one packet is at most `cap` bytes, and one packet more
      would be over it. */
  ghost predicate LongestThatFits(log: seq<Packet>, h: seq<Packet>, cap: nat) {
    && IsSuffix(log, h) && (log != [] ==> h != [])
    && (|h| > 1 ==> |DataOf(h)| <= cap)
    && (forall k :: 0 <= k < |log| - |h| ==> |DataOf(log[k..])| > cap)
  }

  lemma HistoryInBytes(log: seq<Packet>, h: seq<Packet>, cap: nat)
    requires IsHistory(log, h, cap)
    ensures LongestThatFits(log, h, cap) && Total(h) == |DataOf(h)|
  {
    hide Total, DataOf;
    TotalIsData(h);
    forall k | 0 <= k < |log| - |h| ensures |DataOf(log[k..])| > cap {
      assert OverFrom(log, k, cap);
      TotalIsData(log[k..]);
    }
  }

  /** Where a suffix has the total of the whole, what is in front of it has no bytes. */
  lemma SameTotalSameData(ps: seq<Packet>, suffix: seq<Packet>)
    requires IsSuffix(ps, suffix) && Total(suffix) == Total(ps)
    ensures DataOf(suffix) == DataOf(ps)
  {
    hide Total, DataOf;
    var front := ps[..|ps| - |suffix|];
    assert ps == front + suffix;
    DataOfConcat(front, suffix);
    TotalIsData(suffix);
    TotalIsData(ps);
  }

  lemma HistoryIsUnique(log: seq<Packet>, h1: seq<Packet>, h2: seq<Packet>, cap: nat)
    requires IsHistory(log, h1, cap) && IsHistory(log, h2, cap)
    ensures h1 == h2
  {
    var longer, shorter := if |h1| < |h2| then h2 else h1, if |h1| < |h2| then h1 else h2;
    assert |shorter| < |longer| ==> OverFrom(log, |log| - |longer|, cap);
  }

  lemma MaximalAppend(log: seq<Packet>, h: seq<Packet>, cap: nat, p: Packet)
    requires IsSuffix(log, h) && Maximal(log, h, cap)
    ensures IsSuffix(log + [p], h + [p]) && Maximal(log + [p], h + [p], cap)
    ensures Total(h + [p]) == Total(h) + PacketBytes(p)
  {
    TotalConcat(h, [p]);
    assert [p][1..] == [];
    forall k | 0 <= k < |log| - |h| ensures OverFrom(log + [p], k, cap) {
      assert OverFrom(log, k, cap);
      assert (log + [p])[k..] == log[k..] + [p];
      TotalConcat(log[k..], [p]);
    }
  }

  /** What holds between the push of a packet and the end of the eviction loop. */
  ghost predicate Overfull(log: seq<Packet>, h: seq<Packet>, bytes: nat, cap: nat) {
    bytes == Total(h) && h != [] && IsSuffix(log, h) && Maximal(log, h, cap)
  }

  lemma EvictFront(log: seq<Packet>, h: seq<Packet>, bytes: nat, cap: nat)
    requires Overfull(log, h, bytes, cap) && bytes > cap && |h| > 1
    ensures PacketBytes(h[0]) <= bytes && Overfull(log, h[1..], bytes - PacketBytes(h[0]), cap)
  {
    assert OverFrom(log, |log| - |h|, cap);
  }

  // ── The snapshot handed to a new subscriber ───────────────────────────────

  /** Where the back-walk over `ps` stops, having looked at `ps[i..]` and summed
      `acc` bytes. */
  function BackWalk(ps: seq<Packet>, cap: nat, i: nat, acc: nat): (start: nat)
    requires i <= |ps|
    ensures start <= i
  {
    if i == 0 then 0
    else
      var sz := PacketBytes(ps[i - 1]);
      if acc + sz > cap && i < |ps| then i
      else if acc + sz >= cap then i - 1
      else BackWalk(ps, cap, i - 1, acc + sz)
  }

  function Snapshot(ps: seq<Packet>, cap: nat): seq<Packet> {
    ps[BackWalk(ps, cap, |ps|, 0)..]
  }

  /** One packet further back. */
  lemma TotalOneMore(ps: seq<Packet>, i: nat)
    requires 0 < i <= |ps|
    ensures Total(ps[i - 1..]) == PacketBytes(ps[i - 1]) + Total(ps[i..])
    ensures Total(ps) == Total(ps[..i]) + Total(ps[i..])
  {
    assert ps[i - 1..][1..] == ps[i..];
    assert ps == ps[..i] + ps[i..];
    TotalConcat(ps[..i], ps[i..]);
  }

  /** Once the cap is used up, what is left in front carries no bytes. */
  lemma BackWalkStops(ps: seq<Packet>, cap: nat, i: nat, acc: nat)
    requires 0 < i <= |ps| && acc == Total(ps[i..])
    requires Total(ps) <= cap && acc + PacketBytes(ps[i - 1]) >= cap
    ensures acc + PacketBytes(ps[i - 1]) == cap
    ensures BackWalk(ps, cap, i, acc) == i - 1 && Total(ps[i - 1..]) == Total(ps)
  {
    TotalOneMore(ps, i);
    assert Total(ps) == Total(ps[..i - 1]) + Total(ps[i - 1..]) by {
      assert ps == ps[..i - 1] + ps[i - 1..];
      TotalConcat(ps[..i - 1], ps[i - 1..]);
    }
  }

  lemma {:induction false} BackWalkKeepsBytes(ps: seq<Packet>, cap: nat, i: nat, acc: nat)
    requires i <= |ps| && acc == Total(ps[i..])
    requires Total(ps) <= cap && (i < |ps| ==> acc < cap)
    ensures var start := BackWalk(ps, cap, i, acc); Total(ps[start..]) == Total(ps)
    decreases i
  {
    hide Total;
    if i == 0 {
      assert ps[0..] == ps;
    } else if acc + PacketBytes(ps[i - 1]) >= cap {
      BackWalkStops(ps, cap, i, acc);
    } else {
      TotalOneMore(ps, i);
      BackWalkKeepsBytes(ps, cap, i - 1, acc + PacketBytes(ps[i - 1]));
    }
  }

  /** With burst enabled the snapshot is a suffix of the history that carries
      all of its bytes: what it leaves out are packets of no bytes. */
  lemma SnapshotKeepsBytes(log: seq<Packet>, h: seq<Packet>, cap: nat)
    requires IsHistory(log, h, cap)
    ensures IsSuffix(h, Snapshot(h, cap)) && IsSuffix(log, Snapshot(h, cap))
    ensures Total(Snapshot(h, cap)) == Total(h) && DataOf(Snapshot(h, cap)) == DataOf(h)
    ensures h != [] ==> Snapshot(h, cap) != []
  {
    hide DataOf;
    if |h| == 1 && Total(h) > cap {
      assert h[0..] == h && h[1..] == [];
    } else {
      BackWalkKeepsBytes(h, cap, |h|, 0);
    }
    if h != [] {
      var sz := PacketBytes(h[|h| - 1]);
      assert BackWalk(h, cap, |h|, 0) <= |h| - 1;
    }
    SameTotalSameData(h, Snapshot(h, cap));
  }

  // ── The bus object ────────────────────────────────────────────────────────

  class TokioBroadcastBus {
    const cap: nat
    /** Everything ever sent on the broadcast channel, oldest first. */
    var log: seq<Packet>
    var packets: seq<Packet>
    var bytes: nat

    ghost predicate Valid()
      reads this
    {
      bytes == Total(packets) && IsHistory(log, packets, cap)
    }

    constructor (burstBytes: nat)
      ensures Valid() && cap == burstBytes && log == []
    {
      cap, log, packets, bytes := burstBytes, [], [], 0;
    }

    method Publish(packet: Packet)
      requires Valid()
      modifies this
      ensures Valid() && log == old(log) + [packet]
      ensures LongestThatFits(log, packets, cap) && bytes == |DataOf(packets)|
    {
      hide DataOf, LongestThatFits, Total, Maximal;
      MaximalAppend(log, packets, cap, packet);
      log := log + [packet];
      packets := packets + [packet];
      bytes := bytes + PacketBytes(packet);
      while bytes > cap && |packets| > 1
        invariant Overfull(log, packets, bytes, cap) && log == old(log) + [packet]
        decreases |packets|
      {
        EvictFront(log, packets, bytes, cap);
        bytes := bytes - PacketBytes(packets[0]);
        packets := packets[1..];
      }
      HistoryInBytes(log, packets, cap);
    }

    /** The packets to replay and the channel position from which the live
        stream goes on. The walk meets the newest packet first; the snapshot is
        kept in stream order. */
    method Subscribe() returns (snapshot: seq<Packet>, position: nat)
      requires Valid()
      ensures position == |log|
      ensures cap == 0 ==> snapshot == []
      ensures cap > 0 ==> IsSuffix(log, snapshot) && DataOf(snapshot) == DataOf(packets)
      ensures cap > 0 && packets != [] ==> snapshot != []
      ensures cap > 0 ==> snapshot == Snapshot(packets, cap)
    {
      hide DataOf, Total, IsHistory;
      position := |log|;
      snapshot := [];
      if cap == 0 { return; }
      ghost var stop := BackWalk(packets, cap, |packets|, 0);
      var acc: nat, i := 0, |packets|;
      while i > 0
        invariant 0 <= i <= |packets| && snapshot == packets[i..]
        invariant stop == BackWalk(packets, cap, i, acc)
      {
        var p := packets[i - 1];
        if acc + PacketBytes(p) > cap && snapshot != [] {
          assert i == stop;
          break;
        }
        acc := acc + PacketBytes(p);
        snapshot := [p] + snapshot;
        i := i - 1;
        if acc >= cap {
          assert i == stop;
          break;
        }
      }
      assert i == stop;
      SnapshotKeepsBytes(log, packets, cap);
    }
  }
}

/** The same bus under arbitrary interleaving. The lock word carries the program
    counter of the thread inside the critical section, so the send, the history
    push and each eviction of one `publish` are separate steps. */
module BusProtocol {
  import opened Bytes
  import opened Bus

  datatype Lock =
    | Free
    | PubSend(packet: Packet)
    | PubPush(packet: Packet)
    | PubEvict
    | SubCreate(id: nat, burst: bool)
    | SubWalk(id: nat)

  /** One subscriber: what is left of its snapshot, its channel position, what it
      has been handed so far. `first` is the log index its stream starts at; `joined`
      is where the channel was when it subscribed, with or without a burst. */
  datatype Receiver = Receiver(
    ready: bool,
    snapshot: seq<Packet>,
    position: nat,
    delivered: seq<Packet>,
    lagged: bool,
    first: nat,
    burst: bool,
    joined: nat)

  datatype State = State(
    log: seq<Packet>,
    packets: seq<Packet>,
    bytes: nat,
    lock: Lock,
    receivers: map<nat, Receiver>,
    cap: nat,
    ring: nat)

  datatype Step =
    | AcquirePublish(packet: Packet)
    | AcquireSubscribe(id: nat)
    | AcquireSubscribeLive(id: nat)
    | Holder
    | Deliver(id: nat)

  function Init(cap: nat, ring: nat): State {
    State([], [], 0, Free, map[], cap, ring)
  }

  predicate Enabled(s: State, step: Step) {
    match step
    case AcquirePublish(_) => s.lock.Free?
    case AcquireSubscribe(id) => s.lock.Free? && id !in s.receivers
    case AcquireSubscribeLive(id) => s.lock.Free? && id !in s.receivers
    case Holder =>
      && !s.lock.Free? && (s.lock.SubCreate? ==> s.lock.id !in s.receivers)
      && (s.lock.SubWalk? ==> s.lock.id in s.receivers)
    case Deliver(id) =>
      id in s.receivers && s.receivers[id].ready
      && (s.receivers[id].snapshot != [] || s.receivers[id].position < |s.log|)
  }

  /** The thread inside the lock takes its next step. */
  function HolderNext(s: State): State
    requires Enabled(s, Holder)
  {
    match s.lock
    case PubSend(p) => s.(log := s.log + [p], lock := PubPush(p))
    case PubPush(p) => s.(packets := s.packets + [p], bytes := s.bytes + PacketBytes(p), lock := PubEvict)
    case PubEvict =>
      if s.bytes > s.cap && |s.packets| > 1 then
        var gone := PacketBytes(s.packets[0]);
        s.(packets := s.packets[1..], bytes := if gone <= s.bytes then s.bytes - gone else 0)
      else s.(lock := Free)
    case SubCreate(id, burst) =>
      var live := !burst || s.cap == 0;
      s.(receivers := s.receivers[id := Receiver(live, [], |s.log|, [], false, |s.log|, !live, |s.log|)],
         lock := if live then Free else SubWalk(id))
    case SubWalk(id) =>
      var snapshot := Snapshot(s.packets, s.cap);
      var r := s.receivers[id];
      var first := if |snapshot| <= r.position then r.position - |snapshot| else 0;
      s.(receivers := s.receivers[id := r.(ready := true, snapshot := snapshot, first := first)], lock := Free)
  }

  /** The subscriber's stream yields: first the snapshot, then the channel. A
      receiver more than `ring` packets behind is moved to the oldest retained one. */
  function DeliverNext(s: State, r: Receiver): Receiver
    requires r.snapshot != [] || r.position < |s.log|
  {
    if r.snapshot != [] then r.(delivered := r.delivered + [r.snapshot[0]], snapshot := r.snapshot[1..])
    else if |s.log| - r.position > s.ring then r.(position := |s.log| - s.ring, lagged := true)
    else r.(delivered := r.delivered + [s.log[r.position]], position := r.position + 1)
  }

  function Apply(s: State, step: Step): State
    requires Enabled(s, step)
  {
    match step
    case AcquirePublish(p) => s.(lock := PubSend(p))
    case AcquireSubscribe(id) => s.(lock := SubCreate(id, true))
    case AcquireSubscribeLive(id) => s.(lock := SubCreate(id, false))
    case Holder => HolderNext(s)
    case Deliver(id) => s.(receivers := s.receivers[id := DeliverNext(s, s.receivers[id])])
  }

  predicate ValidRun(s: State, run: seq<Step>)
    decreases |run|
  {
    run == [] || (Enabled(s, run[0]) && ValidRun(Apply(s, run[0]), run[1..]))
  }

  function Exec(s: State, run: seq<Step>): State
    requires ValidRun(s, run)
    decreases |run|
  {
    if run == [] then s else Exec(Apply(s, run[0]), run[1..])
  }

  // ── The invariant ─────────────────────────────────────────────────────────

  ghost predicate HistoryOk(s: State) {
    && s.bytes == Total(s.packets)
    && match s.lock
       case PubPush(p) => s.log != [] && s.log[|s.log| - 1] == p && IsHistory(s.log[..|s.log| - 1], s.packets, s.cap)
       case PubEvict => Overfull(s.log, s.packets, s.bytes, s.cap)
       case _ => IsHistory(s.log, s.packets, s.cap)
  }

  /** `xs` is the part of the log picked out by strictly increasing positions,
      all of them in `first..bound`. */
  ghost predicate Picks(log: seq<Packet>, xs: seq<Packet>, first: nat, bound: nat) {
    exists at: seq<nat> :: PicksAt(log, xs, at, first, bound)
  }

  ghost predicate PicksAt(log: seq<Packet>, xs: seq<Packet>, at: seq<nat>, first: nat, bound: nat) {
    && |at| == |xs|
    && (forall i :: 0 <= i < |at| ==> first <= at[i] < bound && at[i] < |log| && log[at[i]] == xs[i])
    && (forall i, j :: 0 <= i < j < |at| ==> at[i] < at[j])
  }

  ghost predicate ReceiverOk(log: seq<Packet>, r: Receiver) {
    && r.first <= r.position <= |log|
    && Picks(log, r.delivered + r.snapshot, r.first, r.position)
    && (!r.lagged ==> r.delivered + r.snapshot == log[r.first..r.position])
  }

  /** Counted back from where it joined, the stream has the bytes of the history there. */
  ghost predicate ReplaysHistory(log: seq<Packet>, first: nat, cap: nat, h: seq<Packet>) {
    && first <= |log| && IsHistory(log, h, cap) && DataOf(log[first..]) == DataOf(h)
    && (h != [] ==> first < |log|)
  }

  ghost predicate JoinOk(log: seq<Packet>, r: Receiver, cap: nat) {
    && r.first <= r.joined <= r.position && r.joined <= |log|
    && (!r.burst ==> r.first == r.joined)
    && (r.ready && r.burst ==> exists h :: ReplaysHistory(log[..r.joined], r.first, cap, h))
  }

  ghost predicate Inv(s: State) {
    && HistoryOk(s)
    && (forall id :: id in s.receivers ==> JoinOk(s.log, s.receivers[id], s.cap))
    && (forall id :: id in s.receivers ==> ReceiverOk(s.log, s.receivers[id]))
    && (forall id :: id in s.receivers && !s.receivers[id].ready ==> s.lock == SubWalk(id))
    && (s.lock.SubCreate? ==> s.lock.id !in s.receivers)
    && (s.lock.SubWalk? ==> s.lock.id in s.receivers && s.receivers[s.lock.id]
                            == Receiver(false, [], |s.log|, [], false, |s.log|, true, |s.log|))
  }

  lemma JoinOkLonger(log: seq<Packet>, p: Packet, r: Receiver, cap: nat)
    requires JoinOk(log, r, cap)
    ensures JoinOk(log + [p], r, cap)
  {
    assert (log + [p])[..r.joined] == log[..r.joined];
  }

  lemma ReceiverOkLonger(log: seq<Packet>, p: Packet, r: Receiver)
    requires ReceiverOk(log, r)
    ensures ReceiverOk(log + [p], r)
  {
    var xs := r.delivered + r.snapshot;
    var at :| PicksAt(log, xs, at, r.first, r.position);
    assert PicksAt(log + [p], xs, at, r.first, r.position);
    assert (log + [p])[r.first..r.position] == log[r.first..r.position];
  }

  lemma PicksAll(log: seq<Packet>, first: nat, bound: nat)
    requires first <= bound <= |log|
    ensures Picks(log, log[first..bound], first, bound)
  {
    assert PicksAt(log, log[first..bound], seq(bound - first, i requires 0 <= i => first + i), first, bound);
  }

  /** One more packet of the log, straight from the channel. */
  lemma PicksNext(log: seq<Packet>, xs: seq<Packet>, first: nat, position: nat)
    requires first <= position < |log| && Picks(log, xs, first, position)
    ensures Picks(log, xs + [log[position]], first, position + 1)
  {
    var at :| PicksAt(log, xs, at, first, position);
    assert PicksAt(log, xs + [log[position]], at + [position], first, position + 1);
  }

  lemma PicksFurther(log: seq<Packet>, xs: seq<Packet>, first: nat, position: nat, bound: nat)
    requires position <= bound && Picks(log, xs, first, position)
    ensures Picks(log, xs, first, bound)
  {
    var at :| PicksAt(log, xs, at, first, position);
    assert PicksAt(log, xs, at, first, bound);
  }

  lemma DeliverKeepsOk(s: State, r: Receiver)
    requires ReceiverOk(s.log, r) && (r.snapshot != [] || r.position < |s.log|)
    ensures ReceiverOk(s.log, DeliverNext(s, r))
  {
    hide Picks;
    var r' := DeliverNext(s, r);
    var xs := r.delivered + r.snapshot;
    if r.snapshot != [] {
      assert r'.delivered + r'.snapshot == xs;
    } else if |s.log| - r.position > s.ring {
      PicksFurther(s.log, xs, r.first, r.position, r'.position);
    } else {
      PicksNext(s.log, xs, r.first, r.position);
      assert r'.delivered + r'.snapshot == xs + [s.log[r.position]];
      assert s.log[r.first..r'.position] == s.log[r.first..r.position] + [s.log[r.position]];
    }
  }

  lemma SendKeepsInv(s: State)
    requires Inv(s) && s.lock.PubSend?
    ensures Inv(HolderNext(s))
  {
    hide ReceiverOk;
    var s' := HolderNext(s);
    assert s'.log[..|s'.log| - 1] == s.log;
    forall id | id in s.receivers
      ensures ReceiverOk(s'.log, s'.receivers[id]) && JoinOk(s'.log, s'.receivers[id], s'.cap)
    {
      ReceiverOkLonger(s.log, s.lock.packet, s.receivers[id]);
      JoinOkLonger(s.log, s.lock.packet, s.receivers[id], s.cap);
    }
  }

  lemma PushKeepsInv(s: State)
    requires Inv(s) && s.lock.PubPush?
    ensures Inv(HolderNext(s))
  {
    hide ReceiverOk, Total, Maximal, Snapshot;
    MaximalAppend(s.log[..|s.log| - 1], s.packets, s.cap, s.lock.packet);
    assert s.log == s.log[..|s.log| - 1] + [s.lock.packet];
  }

  lemma EvictKeepsInv(s: State)
    requires Inv(s) && s.lock.PubEvict?
    ensures Inv(HolderNext(s))
  {
    if s.bytes > s.cap && |s.packets| > 1 { EvictFront(s.log, s.packets, s.bytes, s.cap); }
  }

  /** A receiver whose replay is a suffix `h` of the log and whose channel position is the log's end. */
  lemma FreshReceiverOk(log: seq<Packet>, h: seq<Packet>, ready: bool, burst: bool)
    requires IsSuffix(log, h)
    ensures ReceiverOk(log, Receiver(ready, h, |log|, [], false, |log| - |h|, burst, |log|))
  {
    assert [] + h == log[|log| - |h|..|log|];
    PicksAll(log, |log| - |h|, |log|);
  }

  lemma CreateKeepsInv(s: State)
    requires Inv(s) && s.lock.SubCreate?
    ensures Inv(HolderNext(s))
  {
    hide ReceiverOk, IsHistory, Total, Snapshot, Overfull, DataOf, ReplaysHistory, PacketBytes;
    FreshReceiverOk(s.log, [], !s.lock.burst || s.cap == 0, s.lock.burst && s.cap > 0);
  }

  lemma InstallKeepsInv(s: State, id: nat, r: Receiver)
    requires Inv(s) && s.lock == SubWalk(id) && r.ready && ReceiverOk(s.log, r) && JoinOk(s.log, r, s.cap)
    ensures Inv(s.(receivers := s.receivers[id := r], lock := Free))
  {
    hide ReceiverOk;
  }

  lemma SnapshotReplays(log: seq<Packet>, packets: seq<Packet>, h: seq<Packet>, cap: nat)
    requires IsHistory(log, packets, cap) && h == Snapshot(packets, cap)
    ensures IsSuffix(log, h)
    ensures JoinOk(log, Receiver(true, h, |log|, [], false, |log| - |h|, true, |log|), cap)
  {
    hide Snapshot, IsHistory, DataOf;
    SnapshotKeepsBytes(log, packets, cap);
    assert log[..|log|] == log && log[|log| - |h|..] == h;
    assert ReplaysHistory(log[..|log|], |log| - |h|, cap, packets);
  }

  lemma WalkKeepsInv(s: State)
    requires Inv(s) && s.lock.SubWalk?
    ensures Inv(HolderNext(s))
  {
    hide ReceiverOk, Maximal, Snapshot, Total;
    var h := Snapshot(s.packets, s.cap);
    assert IsSuffix(s.log, h) by { SnapshotKeepsBytes(s.log, s.packets, s.cap); }
    FreshReceiverOk(s.log, h, true, true);
    SnapshotReplays(s.log, s.packets, h, s.cap);
    InstallKeepsInv(s, s.lock.id, Receiver(true, h, |s.log|, [], false, |s.log| - |h|, true, |s.log|));
  }

  lemma StepKeepsInv(s: State, step: Step)
    requires Inv(s) && Enabled(s, step)
    ensures Inv(Apply(s, step))
  {
    hide ReceiverOk, IsHistory, Overfull, Total;
    match step
    case Holder =>
      match s.lock {
        case PubSend(_) => SendKeepsInv(s);
        case PubPush(_) => PushKeepsInv(s);
        case PubEvict => EvictKeepsInv(s);
        case SubCreate(_, _) => CreateKeepsInv(s);
        case SubWalk(_) => WalkKeepsInv(s);
      }
    case Deliver(id) => DeliverKeepsOk(s, s.receivers[id]);
    case _ =>
  }

  lemma {:induction false} RunKeepsInv(s: State, run: seq<Step>)
    requires Inv(s) && ValidRun(s, run)
    ensures Inv(Exec(s, run))
    decreases |run|
  {
    if run != [] {
      StepKeepsInv(s, run[0]);
      RunKeepsInv(Apply(s, run[0]), run[1..]);
    }
  }

  ghost predicate Reachable(s: State) {
    exists run :: ValidRun(Init(s.cap, s.ring), run) && s == Exec(Init(s.cap, s.ring), run)
  }

  lemma ReachableInv(s: State)
    requires Reachable(s)
    ensures Inv(s)
  {
    var run :| ValidRun(Init(s.cap, s.ring), run) && s == Exec(Init(s.cap, s.ring), run);
    RunKeepsInv(Init(s.cap, s.ring), run);
  }

  // ── What every reachable state satisfies ──────────────────────────────────

  /** Whenever the lock is free the history is the longest suffix of everything
      sent that fits the cap, and the running total is its size. */
  lemma HistoryIsLongestSuffix(s: State)
    requires Reachable(s) && s.lock.Free?
    ensures IsHistory(s.log, s.packets, s.cap)
    ensures LongestThatFits(s.log, s.packets, s.cap) && s.bytes == |DataOf(s.packets)|
  {
    ReachableInv(s);
    HistoryInBytes(s.log, s.packets, s.cap);
  }

  /** A subscriber that has not lagged was handed a contiguous run of the log:
      no gap, no duplicate, starting at the first packet of its snapshot. */
  lemma NoGapNoDuplicate(s: State, id: nat)
    requires Reachable(s) && id in s.receivers && !s.receivers[id].lagged
    ensures var r := s.receivers[id];
      && r.first <= r.position <= |s.log| && r.first + |r.delivered| <= |s.log|
      && r.delivered == s.log[r.first..r.first + |r.delivered|]
      && r.delivered + r.snapshot == s.log[r.first..r.position]
  {
    hide Picks, Reachable, HistoryOk;
    ReachableInv(s);
    var r := s.receivers[id];
    assert r.delivered == (r.delivered + r.snapshot)[..|r.delivered|];
  }

  /** With lag it was still handed packets of the log in log order, none twice. */
  lemma LaggedDeliveryIsInOrder(s: State, id: nat)
    requires Reachable(s) && id in s.receivers
    ensures var r := s.receivers[id]; Picks(s.log, r.delivered, r.first, |s.log|)
  {
    hide Reachable, HistoryOk;
    ReachableInv(s);
    var r := s.receivers[id];
    var at :| PicksAt(s.log, r.delivered + r.snapshot, at, r.first, r.position);
    forall i | 0 <= i < |r.delivered| ensures (r.delivered + r.snapshot)[i] == r.delivered[i] {}
    assert PicksAt(s.log, r.delivered, at[..|r.delivered|], r.first, |s.log|);
  }

  /** Where a subscriber joins: at the end of the channel, whatever it is replayed. */
  lemma JoinsAtTheEnd(s: State)
    requires Enabled(s, Holder) && s.lock.SubCreate?
    ensures var r := HolderNext(s).receivers[s.lock.id];
      && r.joined == r.position == |s.log| && r.delivered == [] && !r.lagged
      && (r.burst <==> s.lock.burst && s.cap > 0)
  {
  }

  /** What a subscriber is handed up to where it joined are the bytes of the history
      there; nothing, when it joined without a burst. */
  lemma BurstIsHistory(s: State, id: nat)
    requires Reachable(s) && id in s.receivers && s.receivers[id].ready
    ensures var r := s.receivers[id];
      && r.first <= r.joined <= |s.log|
      && (!r.burst ==> r.first == r.joined)
      && (r.burst ==> exists h ::
          LongestThatFits(s.log[..r.joined], h, s.cap) && DataOf(s.log[r.first..r.joined]) == DataOf(h))
  {
    hide Reachable, DataOf, IsHistory, HistoryOk, ReceiverOk;
    ReachableInv(s);
    var r := s.receivers[id];
    if r.burst {
      var h :| ReplaysHistory(s.log[..r.joined], r.first, s.cap, h);
      HistoryInBytes(s.log[..r.joined], h, s.cap);
      assert s.log[..r.joined][r.first..] == s.log[r.first..r.joined];
    }
  }

  // ── Progress ──────────────────────────────────────────────────────────────

  /** A subscriber loses packets exactly when it has used up its snapshot and is more
      than the ring's size behind; then it goes on with the oldest packet retained. */
  lemma LagsIff(s: State, id: nat)
    requires Enabled(s, Deliver(id))
    ensures var r, r' := s.receivers[id], Apply(s, Deliver(id)).receivers[id];
      && (r'.lagged <==> r.lagged || (r.snapshot == [] && |s.log| - r.position > s.ring))
      && (r'.delivered == r.delivered <==> r.snapshot == [] && |s.log| - r.position > s.ring)
      && (r'.delivered == r.delivered ==> r'.position == |s.log| - s.ring && r'.snapshot == [])
  {
  }

  lemma {:induction false} ExecStep(s: State, step: Step, run: seq<Step>)
    requires Enabled(s, step) && ValidRun(Apply(s, step), run)
    ensures ValidRun(s, [step] + run) && Exec(s, [step] + run) == Exec(Apply(s, step), run)
  {
    hide Enabled, Apply;
    assert ([step] + run)[0] == step && ([step] + run)[1..] == run;
  }

  predicate KeepsUp(s: State, id: nat) {
    && id in s.receivers && s.receivers[id].ready && !s.receivers[id].lagged
    && s.receivers[id].position <= |s.log| <= s.receivers[id].position + s.ring
  }

  /** A subscriber that keeps up can be handed all there is. */
  lemma {:induction false} DeliversAll(s: State, id: nat) returns (run: seq<Step>)
    requires Inv(s) && KeepsUp(s, id)
    ensures (forall step :: step in run ==> step == Deliver(id)) && ValidRun(s, run)
    ensures var r := Exec(s, run).receivers;
      id in r && !r[id].lagged && r[id].snapshot == [] && s.receivers[id].first <= |s.log|
      && r[id].delivered == s.log[s.receivers[id].first..]
    decreases |s.log| - s.receivers[id].position + |s.receivers[id].snapshot|
  {
    hide HistoryOk, Picks, JoinOk;
    var r := s.receivers[id];
    run := [];
    if r.snapshot == [] && r.position == |s.log| {
      assert r.delivered + [] == r.delivered;
    } else {
      StepKeepsInv(s, Deliver(id));
      run := DeliversAll(Apply(s, Deliver(id)), id);
      ExecStep(s, Deliver(id), run);
      run := [Deliver(id)] + run;
    }
  }

  function Turns(s: State): nat {
    match s.lock
    case PubSend(_) => |s.packets| + 4
    case PubPush(_) => |s.packets| + 3
    case PubEvict => |s.packets| + 1
    case SubCreate(_, _) => 2
    case SubWalk(_) => 1
    case Free => 0
  }

  lemma HolderTurns(s: State)
    requires Inv(s) && !s.lock.Free?
    ensures Enabled(s, Holder) && Turns(HolderNext(s)) < Turns(s)
    ensures var s' := HolderNext(s);
      && (s.lock.PubSend? ==> s'.log == s.log + [s.lock.packet] && !s'.lock.PubSend?)
      && (!s.lock.PubSend? ==> s'.log == s.log && !s'.lock.PubSend?)
      && (s.lock.SubCreate? ==> s.lock.id in s'.receivers)
      && s.receivers.Keys <= s'.receivers.Keys
  {
    hide HistoryOk, ReceiverOk, JoinOk, Snapshot, Total;
  }

  /** Whoever holds the lock gets to free it on its own; a publisher's packet is then the
      last of the log, and a new subscriber is there and ready. */
  lemma {:induction false} HolderFrees(s: State) returns (run: seq<Step>)
    requires Inv(s)
    ensures (forall step :: step in run ==> step == Holder) && ValidRun(s, run)
    ensures var s' := Exec(s, run);
      && s'.lock.Free? && Inv(s')
      && s'.log == (if s.lock.PubSend? then s.log + [s.lock.packet] else s.log)
      && (s.lock.SubCreate? ==> s.lock.id in s'.receivers)
      && s.receivers.Keys <= s'.receivers.Keys
      && (forall id :: id in s'.receivers ==> s'.receivers[id].ready)
    decreases Turns(s)
  {
    run := [];
    if !s.lock.Free? {
      hide HolderNext, ReceiverOk, JoinOk, HistoryOk;
      HolderTurns(s);
      StepKeepsInv(s, Holder);
      run := HolderFrees(HolderNext(s));
      ExecStep(s, Holder, run);
      run := [Holder] + run;
    }
  }

  /** `s'` comes of `s` by `first` and then whatever the lock's holder does. */
  ghost predicate Runs(s: State, first: Step, run: seq<Step>, s': State) {
    && run != [] && run[0] == first && (forall step :: step in run[1..] ==> step == Holder)
    && ValidRun(s, run) && Exec(s, run) == s'
  }

  /** A publish that finds the lock free gets its packet onto the channel and into the
      history, and frees the lock again. */
  lemma Publishes(s: State, packet: Packet) returns (run: seq<Step>, s': State)
    requires Inv(s) && s.lock.Free?
    ensures Runs(s, AcquirePublish(packet), run, s') && s'.lock.Free?
    ensures s'.log == s.log + [packet] && LongestThatFits(s'.log, s'.packets, s'.cap)
  {
    hide ReceiverOk, JoinOk, IsHistory, LongestThatFits, DataOf, Total;
    var step := AcquirePublish(packet);
    StepKeepsInv(s, step);
    var rest := HolderFrees(Apply(s, step));
    ExecStep(s, step, rest);
    run, s' := [step] + rest, Exec(Apply(s, step), rest);
    HistoryInBytes(s'.log, s'.packets, s'.cap);
  }

  /** A subscription that finds the lock free gets a receiver that joins at the end of the
      channel, with a burst exactly if it asked for one and bursts are on. */
  lemma Subscribes(s: State, id: nat, burst: bool) returns (run: seq<Step>, s': State)
    requires Inv(s) && s.lock.Free? && id !in s.receivers
    ensures Runs(s, if burst then AcquireSubscribe(id) else AcquireSubscribeLive(id), run, s') && s'.lock.Free?
    ensures s'.log == s.log && id in s'.receivers && s'.receivers[id].ready
    ensures s'.receivers[id].joined == |s.log| && (s'.receivers[id].burst <==> burst && s.cap > 0)
  {
    hide ReceiverOk, JoinOk, IsHistory, Snapshot, DataOf, Total;
    var step := if burst then AcquireSubscribe(id) else AcquireSubscribeLive(id);
    var locked := Apply(s, step);
    var created := HolderNext(locked);
    StepKeepsInv(s, step);
    StepKeepsInv(locked, Holder);
    if created.lock.Free? {
      run, s' := [Holder], created;
    } else {
      StepKeepsInv(created, Holder);
      s' := HolderNext(created);
      ExecStep(created, Holder, []);
      run := [Holder] + [Holder];
    }
    ExecStep(locked, Holder, run[1..]);
    ExecStep(s, step, run);
    run := [step] + run;
  }
}
