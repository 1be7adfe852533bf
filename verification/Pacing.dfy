/** Pacing a publish loop: bytes go out no faster than they play. */
module Pacing {
  import opened Bytes
  import opened Wrappers
  import opened Bus

  /** Nanoseconds in a second. */
  const SECOND := 1_000_000_000

  /** `bytes` bytes have had time to play at `rate` bytes per second by `time`. */
  predicate Played(bytes: nat, rate: nat, time: nat) { bytes * SECOND <= rate * time }

  /** As a time in seconds, `bytes / rate` has passed. */
  lemma PlayedIff(bytes: nat, rate: nat, time: nat)
    requires rate > 0
    ensures Played(bytes, rate, time) <==> bytes as real / rate as real <= time as real / 1.0e9
  {
    var b, r, t, s := bytes as real, rate as real, time as real, 1.0e9;
    assert bytes * SECOND <= rate * time <==> b * s <= r * t;
    if b / r <= t / s {
      ScaleUp(b / r, t / s, r * s);
      assert (b / r) * (r * s) == b * s && (t / s) * (r * s) == r * t;
    }
    if b * s <= r * t {
      ScaleUp(b * s, r * t, 1.0 / (r * s));
      assert (b * s) * (1.0 / (r * s)) == b / r && (r * t) * (1.0 / (r * s)) == t / s;
    }
  }

  lemma ScaleUp(x: real, y: real, k: real)
    requires x <= y && k >= 0.0
    ensures x * k <= y * k
  {
  }

  lemma PlayedLater(bytes: nat, rate: nat, time: nat, later: nat)
    requires Played(bytes, rate, time) && time <= later
    ensures Played(bytes, rate, later)
  {
    assert rate * time <= rate * later;
  }

  lemma PlayedNothing(rate: nat, time: nat)
    ensures Played(0, rate, time)
  {
    assert rate * time >= 0;
  }

  /** Sleep until `bytes` bytes have had time to play; a sleep may last longer. */
  method SleepUntil(bytes: nat, rate: nat, now: nat) returns (later: nat)
    requires rate > 0
    ensures later >= now && Played(bytes, rate, later)
  {
    assert rate * (now + bytes * SECOND) >= bytes * SECOND;
    assert Played(bytes, rate, now + bytes * SECOND);
    later :| later >= now && Played(bytes, rate, later);
  }

  predicate PacedAt(packets: seq<Packet>, rate: nat, i: nat)
    requires i < |packets|
  {
    packets[i].sequence == i && (rate > 0 ==> Played(|DataOf(packets[..i])|, rate, packets[i].pts))
  }

  /** Numbered from 0, and each published only once those before it could have played. */
  ghost predicate Paced(packets: seq<Packet>, rate: nat) {
    forall i :: 0 <= i < |packets| ==> PacedAt(packets, rate, i)
  }

  /** In a paced stream packet `i` has sequence number `i`, and is not published before the
      bytes in front of it take their time at `rate` bytes per second. */
  lemma PacedMeans(packets: seq<Packet>, rate: nat, i: nat)
    requires Paced(packets, rate) && i < |packets|
    ensures packets[i].sequence == i
    ensures rate > 0 ==>
      |DataOf(packets[..i])| as real / rate as real <= packets[i].pts as real / 1.0e9
  {
    assert PacedAt(packets, rate, i);
    if rate > 0 { PlayedIff(|DataOf(packets[..i])|, rate, packets[i].pts); }
  }

  lemma PacedSnoc(packets: seq<Packet>, p: Packet, rate: nat)
    requires Paced(packets, rate) && p.sequence == |packets|
    requires rate > 0 ==> Played(|DataOf(packets)|, rate, p.pts)
    ensures Paced(packets + [p], rate)
  {
    hide Played;
    var all := packets + [p];
    assert all[..|packets|] == packets;
    forall i | 0 <= i < |all| ensures PacedAt(all, rate, i) {
      if i < |packets| {
        assert PacedAt(packets, rate, i) && all[..i] == packets[..i];
      }
    }
  }

  lemma {:induction false} DataOfSnoc(packets: seq<Packet>, p: Packet)
    ensures DataOf(packets + [p]) == DataOf(packets) + DataIn(p)
  {
    if packets == [] {
      assert DataOf([p]) == DataIn(p) + DataOf([]);
    } else {
      assert (packets + [p])[1..] == packets[1..] + [p];
      DataOfSnoc(packets[1..], p);
    }
  }

  /** Nothing is published before what is in front of it. */
  ghost predicate InOrder(packets: seq<Packet>) {
    forall i, j :: 0 <= i < j < |packets| ==> packets[i].pts <= packets[j].pts
  }

  /** And nothing later than now. */
  ghost predicate Clocked(packets: seq<Packet>, now: nat) {
    InOrder(packets) && (packets != [] ==> packets[|packets| - 1].pts <= now)
  }

  lemma ClockedSnoc(packets: seq<Packet>, p: Packet, now: nat)
    requires Clocked(packets, now) && now <= p.pts
    ensures Clocked(packets + [p], p.pts)
  {
  }

  lemma ClockedLater(packets: seq<Packet>, now: nat, later: nat)
    requires Clocked(packets, now) && now <= later
    ensures Clocked(packets, later)
  {
  }

  lemma ClockedFirst(now: nat)
    ensures Clocked([], now)
  {
  }

  // ── Where a publish loop stops ────────────────────────────────────────────

  /** A pacing rate of 0 makes the sleep infinitely long, which no duration is. */
  datatype Ending = Finished | Cancelled | Panicked

  /** Of `n` chunks those that are taken before the loop is cancelled: `cut` says after
      how many of them that happens, if it does. */
  function Allowed(cut: Option<nat>, n: nat): (k: nat)
    ensures k <= n
  {
    if cut.Some? && cut.value < n then cut.value else n
  }

  /** What is left of `cut` when `n` chunks were taken. */
  function CutAfter(cut: Option<nat>, n: nat): Option<nat>
    requires cut.Some? ==> n <= cut.value
  {
    if cut.Some? then Some(cut.value - n) else None
  }
}
