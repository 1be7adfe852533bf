/** Passthrough ingest: a reader that strips the metadata prefix and queues what it
    reads, and a publisher that paces the queue onto the bus. */
module Ingest {
  import opened Bytes
  import opened Wrappers
  import opened Scripts
  import opened Codec
  import opened IngestSpec
  import opened Bus
  import opened Pacing
  import opened StagingSpec

  datatype ReadOutcome = Data(bytes: seq<byte>) | Eof | Stop

  /** A source's byte stream, read in the pieces that `turns` says. */
  class Source {
    const data: seq<byte>
    var pos: nat
    var turns: seq<Turn>

    constructor (input: seq<byte>, script: seq<Turn>)
      ensures data == input && pos == 0 && turns == script
    {
      data, pos, turns := input, 0, script;
    }

    ghost predicate Valid() reads this { pos <= |data| }

    /** Where reading until `target` leads from here. */
    ghost function Ahead(chunk: nat, target: nat): Stream
      requires Valid() && chunk > 0
      reads this
    {
      Fetch(|data|, chunk, target, pos, turns)
    }

    method Read(chunk: nat, ghost target: nat) returns (r: ReadOutcome)
      requires Valid() && chunk > 0 && pos < target
      modifies this
      ensures Valid()
      ensures r.Data? ==> 0 < |r.bytes| <= chunk && pos == old(pos) + |r.bytes| && r.bytes == data[old(pos)..pos]
      ensures r.Data? ==> old(Ahead(chunk, target)) == Ahead(chunk, target)
      ensures !r.Data? ==> pos == old(pos) && (r.Eof? ==> pos == |data|)
      ensures r.Eof? ==> old(Ahead(chunk, target)) == Stream(pos, turns, Ended)
      ensures r.Stop? ==> old(Ahead(chunk, target)) == Stream(pos, turns, Broken)
    {
      var turn := NextTurn(turns, chunk);
      turns := Tail(turns);
      if turn.Interrupted? { return Stop; }
      if pos == |data| { return Eof; }
      var n := Taken(turn.n, chunk, |data| - pos);
      r := Data(data[pos..pos + n]);
      pos := pos + n;
    }
  }

  lemma Id3OfPrefix(d: seq<byte>, m: nat)
    requires 10 <= m <= |d|
    ensures Id3Total(d[..m]) == Id3Total(d)
  {
    assert d[..m][..3] == d[..3];
  }

  /** How a phase of reading ended, if not by having what it needs. */
  ghost predicate EndsAs(end: Option<ReadOutcome>, s: Stream, src: Source, chunk: nat, target: nat)
    requires src.Valid() && chunk > 0
    reads src
  {
    match end
    case None => s == src.Ahead(chunk, target)
    case Some(r) => !r.Data? && s == Stream(src.pos, src.turns, if r.Eof? then Ended else Broken)
  }

  /** Gather bytes onto `have` until there are `need` of them. */
  method Gather(src: Source, chunk: nat, have: seq<byte>, need: nat, ghost from: nat, ghost target: nat)
    returns (got: seq<byte>, end: Option<ReadOutcome>)
    requires src.Valid() && chunk > 0 && from <= src.pos && have == src.data[from..src.pos] && from + need <= target
    modifies src
    ensures src.Valid() && from <= src.pos && got == src.data[from..src.pos]
    ensures EndsAs(end, old(src.Ahead(chunk, target)), src, chunk, target)
    ensures end.None? <==> |got| >= need
  {
    got, end := have, None;
    while |got| < need
      invariant src.Valid() && from <= src.pos && got == src.data[from..src.pos]
      invariant src.Ahead(chunk, target) == old(src.Ahead(chunk, target))
      decreases |src.data| - src.pos
    {
      var r := src.Read(chunk, target);
      if !r.Data? { return got, Some(r); }
      got := got + r.bytes;
    }
  }

  /** Read over the rest of a tag that ends at `total`; what a read brought beyond it
      is kept. */
  method SkipTag(src: Source, chunk: nat, total: nat, ghost target: nat)
    returns (left: seq<byte>, end: Option<ReadOutcome>)
    requires src.Valid() && chunk > 0 && src.pos < total <= target
    modifies src
    ensures src.Valid()
    ensures EndsAs(end, old(src.Ahead(chunk, target)), src, chunk, target)
    ensures end.None? ==> total <= src.pos && left == src.data[total..src.pos]
    ensures end.Some? ==> src.pos < total
  {
    left, end := [], None;
    var toSkip := total - src.pos;
    while toSkip > 0
      invariant src.Valid() && 0 <= toSkip == total - src.pos && left == []
      invariant src.Ahead(chunk, target) == old(src.Ahead(chunk, target))
      decreases toSkip
    {
      var r := src.Read(chunk, target);
      if !r.Data? { return [], Some(r); }
      if |r.bytes| <= toSkip {
        toSkip := toSkip - |r.bytes|;
      } else {
        left := r.bytes[toSkip..];
        return;
      }
    }
  }

  /** `strip_mp3_prefix`: it reads up to the target, is stopped exactly when that is
      interrupted, and else queues what it has behind the stripped prefix. */
  method StripMp3Prefix(src: Source, chunk: nat) returns (out: seq<byte>, stopped: bool)
    requires src.Valid() && src.pos == 0 && chunk > 0
    modifies src
    ensures src.Valid()
    ensures var s := old(src.Ahead(chunk, Target(src.data)));
      && src.pos == s.pos && src.turns == s.turns && (stopped <==> s.progress.Broken?)
      && Stripped(src.data, s.pos) <= |src.data|
      && (stopped ==> out == [])
      && (!stopped ==> StopsAt(|src.data|, Target(src.data), chunk, s.pos))
      && (!stopped ==> Stripped(src.data, s.pos) <= s.pos && out == src.data[Stripped(src.data, s.pos)..s.pos])
  {
    hide Stripped, MetadataEnd, Fetch;
    ghost var target := Target(src.data);
    FetchStops(|src.data|, target, chunk, 0, src.turns);
    var head, end := Gather(src, chunk, [], 10, 0, target);
    if end.Some? {
      if end.value.Stop? { return [], true; }
      ShortInput(src.data);
      return head, false;
    }
    Id3OfPrefix(src.data, src.pos);
    var tag := Id3Total(head);
    var pending;
    if |head| >= tag {
      pending := head[tag..];
    } else {
      pending, end := SkipTag(src, chunk, tag, target);
      if end.Some? {
        if end.value.Stop? { return [], true; }
        TagOnly(src.data);
        return [], false;
      }
    }
    pending, end := Gather(src, chunk, pending, PROBE_BYTES, tag, target);
    if end.Some? && end.value.Stop? { return [], true; }
    StripResult(src.data, src.pos);
    FetchOpen(src, chunk, target);
    var e := MetadataEnd(pending);
    out, stopped := if e.Some? then pending[e.value..] else pending, false;
  }

  /** There is nothing left to read towards a target that was reached. */
  lemma FetchOpen(src: Source, chunk: nat, target: nat)
    requires src.Valid() && chunk > 0
    ensures src.pos >= target ==> src.Ahead(chunk, target) == Stream(src.pos, src.turns, Open)
  {
  }

  lemma StripResult(d: seq<byte>, pos: nat)
    requires Id3Total(d) <= pos <= |d|
    ensures var pending := d[Id3Total(d)..pos];
      var e := MetadataEnd(pending);
      Stripped(d, pos) <= pos && d[Stripped(d, pos)..pos] == if e.Some? then pending[e.value..] else pending
  {
  }

  lemma ShortInput(d: seq<byte>)
    requires |d| < 10
    ensures Id3Total(d) == 0 && Stripped(d, |d|) == 0
  {
  }

  lemma TagOnly(d: seq<byte>)
    requires Id3Total(d) > |d|
    ensures Stripped(d, |d|) == |d|
  {
  }

  // ── The reader task ───────────────────────────────────────────────────────

  /** Where the reader is when it goes over to plain reading. */
  function Prefix(input: seq<byte>, turns: seq<Turn>, chunk: nat, mp3: bool): (s: Stream)
    requires chunk > 0
    ensures s.pos <= |input|
  {
    if mp3 then Fetch(|input|, chunk, Target(input), 0, turns) else Stream(0, turns, Open)
  }

  /** Where it ends: at the end of the input, or where it was interrupted. */
  function Reader(input: seq<byte>, turns: seq<Turn>, chunk: nat, mp3: bool): (s: Stream)
    requires chunk > 0
    ensures s.pos <= |input| && !s.progress.Open?
    ensures s.progress.Ended? ==> s.pos == |input|
    ensures Prefix(input, turns, chunk, mp3).pos <= s.pos
  {
    var p := Prefix(input, turns, chunk, mp3);
    if p.progress.Broken? then p else Fetch(|input|, chunk, |input| + 1, p.pos, p.turns)
  }

  /** How many leading bytes of the input the queue leaves out. */
  function Skipped(input: seq<byte>, turns: seq<Turn>, chunk: nat, mp3: bool): (k: nat)
    requires chunk > 0
    ensures k <= |input|
  {
    if mp3 then Stripped(input, Prefix(input, turns, chunk, mp3).pos) else 0
  }

  /** The bytes the reader queues: all it reads but the stripped prefix; nothing when it
      is interrupted before it could strip one. */
  function Queued(input: seq<byte>, turns: seq<Turn>, chunk: nat, mp3: bool): seq<byte>
    requires chunk > 0
  {
    var k, e := Skipped(input, turns, chunk, mp3), Reader(input, turns, chunk, mp3);
    if Prefix(input, turns, chunk, mp3).progress.Broken? || e.pos < k then [] else input[k..e.pos]
  }

  /** What the reader queues before its plain reading loop. */
  method FirstChunks(src: Source, chunk: nat, mp3: bool) returns (queue: seq<seq<byte>>, stopped: bool)
    requires src.Valid() && src.pos == 0 && chunk > 0
    modifies src
    ensures src.Valid() && (forall c :: c in queue ==> c != [])
    ensures var p := Prefix(src.data, old(src.turns), chunk, mp3);
      && src.pos == p.pos && src.turns == p.turns && (stopped <==> p.progress.Broken?) && (stopped ==> queue == [])
      && var k := Skipped(src.data, old(src.turns), chunk, mp3);
        !stopped ==> k <= p.pos && Flat(queue) == src.data[k..p.pos]
  {
    queue, stopped := [], false;
    if mp3 {
      var first;
      first, stopped := StripMp3Prefix(src, chunk);
      if first != [] {
        queue := [first];
        FlatSnoc([], first);
      }
    }
  }

  /** `drain_reader`: the chunks it queues, and whether it came to the end of the input. */
  method DrainReader(src: Source, chunk: nat, mp3: bool) returns (queue: seq<seq<byte>>, clean: bool)
    requires src.Valid() && src.pos == 0 && chunk > 0
    modifies src
    ensures forall c :: c in queue ==> c != []
    ensures clean <==> Reader(src.data, old(src.turns), chunk, mp3).progress.Ended?
    ensures Flat(queue) == Queued(src.data, old(src.turns), chunk, mp3)
  {
    hide Fetch, Prefix, Reader, Skipped, Queued, Flat;
    ghost var was := src.turns;
    var stopped;
    queue, stopped := FirstChunks(src, chunk, mp3);
    clean := false;
    ReaderIs(src, was, chunk, mp3);
    if stopped { return; }
    ghost var k := Skipped(src.data, old(src.turns), chunk, mp3);
    ghost var target := |src.data| + 1;
    ghost var e := src.Ahead(chunk, target);
    while true
      invariant src.Valid() && k <= src.pos && Flat(queue) == src.data[k..src.pos]
      invariant forall c :: c in queue ==> c != []
      invariant src.Ahead(chunk, target) == e
      decreases |src.data| - src.pos
    {
      ghost var at := src.pos;
      var r := src.Read(chunk, target);
      match r
      case Stop => break;
      case Eof =>
        clean := true;
        break;
      case Data(bytes) =>
        FlatSnoc(queue, bytes);
        assert src.data[k..at] + bytes == src.data[k..src.pos];
        queue := queue + [bytes];
    }
  }

  /** What the reading loop still has to bring about. */
  lemma ReaderIs(src: Source, was: seq<Turn>, chunk: nat, mp3: bool)
    requires src.Valid() && chunk > 0
    ensures var p := Prefix(src.data, was, chunk, mp3);
      var e := Reader(src.data, was, chunk, mp3);
      var k := Skipped(src.data, was, chunk, mp3);
      && (p.progress.Broken? ==> !e.progress.Ended? && Queued(src.data, was, chunk, mp3) == Flat([]))
      && (!p.progress.Broken? && p.pos == src.pos && p.turns == src.turns ==> e == src.Ahead(chunk, |src.data| + 1))
      && (!p.progress.Broken? && k <= e.pos ==> Queued(src.data, was, chunk, mp3) == src.data[k..e.pos])
  {
    hide Fetch;
  }

  // ── The publisher ─────────────────────────────────────────────────────────

  /** The rate in force once `n` chunks were looked at: the configured cap, else the
      first one that was detected. */
  function RateAfter(chunks: seq<seq<byte>>, cap: Option<nat>, detect: seq<byte> -> Option<nat>, n: nat): Option<nat>
    requires n <= |chunks|
  {
    if n == 0 then cap
    else
      var before := RateAfter(chunks, cap, detect, n - 1);
      if before.Some? then before else detect(chunks[n - 1])
  }

  lemma {:induction false} RateStays(
    chunks: seq<seq<byte>>, cap: Option<nat>, detect: seq<byte> -> Option<nat>, i: nat, n: nat)
    requires i <= n <= |chunks| && RateAfter(chunks, cap, detect, i).Some?
    ensures RateAfter(chunks, cap, detect, n) == RateAfter(chunks, cap, detect, i)
  {
    if i < n { RateStays(chunks, cap, detect, i, n - 1); }
  }

  /** The packet made of chunk `i`: numbered, whole, and published when the bytes
      before it have had time to play at the rate in force. */
  ghost predicate PublishedAt(
    p: Packet, chunks: seq<seq<byte>>, cap: Option<nat>, detect: seq<byte> -> Option<nat>, codec: string, i: nat)
    requires i < |chunks|
  {
    && p.sequence == i && p.payload == Encoded(codec, chunks[i])
    && InTime(chunks, cap, detect, i, p.pts)
  }

  /** At `time` the first `i` chunks have had time to play at the rate in force. */
  ghost predicate InTime(
    chunks: seq<seq<byte>>, cap: Option<nat>, detect: seq<byte> -> Option<nat>, i: nat, time: nat)
    requires i <= |chunks|
  {
    var rate := RateAfter(chunks, cap, detect, i);
    rate.Some? ==> Played(|Flat(chunks[..i])|, rate.value, time)
  }

  ghost predicate AllPublished(
    packets: seq<Packet>, chunks: seq<seq<byte>>, cap: Option<nat>, detect: seq<byte> -> Option<nat>, codec: string)
  {
    |packets| <= |chunks| && forall i :: 0 <= i < |packets| ==> PublishedAt(packets[i], chunks, cap, detect, codec, i)
  }

  /** The publish loop over what the reader queued; `now` only ever grows, and a sleep
      lasts at least as long as asked. It looks for a cancellation before each chunk,
      before the end of the queue, and in every sleep. */
  method PublishQueue(
    bus: TokioBroadcastBus, chunks: seq<seq<byte>>, codec: string, cap: Option<nat>, detect: seq<byte> -> Option<nat>,
    cut: Option<nat>)
    returns (packets: seq<Packet>, ending: Ending)
    requires bus.Valid()
    modifies bus
    ensures bus.Valid() && bus.log == old(bus.log) + packets
    ensures AllPublished(packets, chunks, cap, detect, codec) && InOrder(packets)
    ensures var n := Allowed(cut, |chunks|);
      && (ending.Panicked? <==> n > 0 && RateAfter(chunks, cap, detect, n) == Some(0))
      && (if ending.Panicked? then FirstZero(chunks, cap, detect, |packets|) else |packets| == n)
    ensures ending.Finished? <==> !ending.Panicked? && (cut.None? || cut.value > |chunks|)
  {
    hide TokioBroadcastBus.Valid, Played, Flat, RateAfter, AllPublished, InTime, PublishedAt;
    packets := [];
    var now, received: nat, rate := 0, 0, cap;
    NothingYet(chunks, cap, detect, codec);
    for i := 0 to |chunks|
      invariant bus.Valid() && bus.log == old(bus.log) + packets && |packets| == i <= Allowed(cut, |chunks|)
      invariant AllPublished(packets, chunks, cap, detect, codec)
      invariant received == |Flat(chunks[..i])| && rate == RateAfter(chunks, cap, detect, i)
      invariant i == 0 || rate != Some(0)
      invariant InTime(chunks, cap, detect, i, now)
      invariant InOrder(packets) && (i > 0 ==> packets[i - 1].pts <= now)
    {
      if cut == Some(i) { return packets, Cancelled; }
      if rate.None? { rate := detect(chunks[i]); }
      var at: nat :| at >= now;
      var packet := Packet(Encoded(codec, chunks[i]), at, i);
      PublishedNext(packets, packet, chunks, cap, detect, codec, now);
      RateNext(chunks, cap, detect, i);
      bus.Publish(packet);
      packets := packets + [packet];
      received := received + |chunks[i]|;
      now := at;
      if rate.Some? {
        if rate.value == 0 {
          RateStays(chunks, cap, detect, i + 1, Allowed(cut, |chunks|));
          return packets, Panicked;
        }
        if !Played(received, rate.value, now) {
          if cut == Some(i + 1) { return packets, Cancelled; }
          now := SleepUntil(received, rate.value, now);
        }
      }
      SleptIsInTime(chunks, cap, detect, i + 1, received, rate, now);
    }
    ending := if cut == Some(|chunks|) then Cancelled else Finished;
  }

  /** The rate in force is 0 for the first time after `n` chunks. */
  ghost predicate FirstZero(chunks: seq<seq<byte>>, cap: Option<nat>, detect: seq<byte> -> Option<nat>, n: nat) {
    && 0 < n <= |chunks| && RateAfter(chunks, cap, detect, n) == Some(0)
    && (n == 1 || RateAfter(chunks, cap, detect, n - 1) != Some(0))
  }

  lemma NothingYet(chunks: seq<seq<byte>>, cap: Option<nat>, detect: seq<byte> -> Option<nat>, codec: string)
    ensures Flat(chunks[..0]) == [] && RateAfter(chunks, cap, detect, 0) == cap
    ensures InTime(chunks, cap, detect, 0, 0) && AllPublished([], chunks, cap, detect, codec)
  {
    if cap.Some? { PlayedNothing(cap.value, 0); }
  }

  lemma RateNext(chunks: seq<seq<byte>>, cap: Option<nat>, detect: seq<byte> -> Option<nat>, i: nat)
    requires i < |chunks|
    ensures var before := RateAfter(chunks, cap, detect, i);
      RateAfter(chunks, cap, detect, i + 1) == if before.Some? then before else detect(chunks[i])
    ensures |Flat(chunks[..i + 1])| == |Flat(chunks[..i])| + |chunks[i]|
  {
    assert chunks[..i + 1] == chunks[..i] + [chunks[i]];
    FlatSnoc(chunks[..i], chunks[i]);
  }

  lemma SleptIsInTime(
    chunks: seq<seq<byte>>, cap: Option<nat>, detect: seq<byte> -> Option<nat>, n: nat, received: nat,
    rate: Option<nat>, now: nat)
    requires n <= |chunks| && received == |Flat(chunks[..n])| && rate == RateAfter(chunks, cap, detect, n)
    requires rate.Some? ==> Played(received, rate.value, now)
    ensures InTime(chunks, cap, detect, n, now)
  {
    hide Played;
  }

  lemma PublishedNext(
    packets: seq<Packet>, p: Packet, chunks: seq<seq<byte>>, cap: Option<nat>, detect: seq<byte> -> Option<nat>,
    codec: string, now: nat)
    requires AllPublished(packets, chunks, cap, detect, codec) && |packets| < |chunks|
    requires InTime(chunks, cap, detect, |packets|, now) && now <= p.pts
    requires p.sequence == |packets| && p.payload == Encoded(codec, chunks[|packets|])
    ensures AllPublished(packets + [p], chunks, cap, detect, codec)
  {
    hide Played;
    var rate := RateAfter(chunks, cap, detect, |packets|);
    if rate.Some? { PlayedLater(|Flat(chunks[..|packets|])|, rate.value, now, p.pts); }
    assert PublishedAt(p, chunks, cap, detect, codec, |packets|);
  }

  // ── End to end ────────────────────────────────────────────────────────────

  lemma {:induction false} DataOfPublished(packets: seq<Packet>, chunks: seq<seq<byte>>, codec: string)
    requires |packets| <= |chunks|
    requires forall i :: 0 <= i < |packets| ==> packets[i].payload == Encoded(codec, chunks[i])
    ensures DataOf(packets) == Flat(chunks[..|packets|]) && DataOf(packets) <= Flat(chunks)
    ensures |packets| == |chunks| ==> DataOf(packets) == Flat(chunks)
  {
    if packets == [] {
      assert chunks[..0] == [];
    } else {
      DataOfPublished(packets[1..], chunks[1..], codec);
      assert chunks[..|packets|][1..] == chunks[1..][..|packets[1..]|];
    }
  }

  /** When the publisher is cancelled at the latest, if the reader is interrupted: it
      finds that out before it finds the queue ended. */
  function CutBy(cut: Option<nat>, queue: seq<seq<byte>>, clean: bool): Option<nat> {
    if clean then cut else Some(Allowed(cut, |queue|))
  }

  /** A whole ingest: what reaches the bus is numbered 0, 1, 2 and so on, and its bytes
      are a prefix of the input without the stripped bytes. It finishes exactly when it is
      not interrupted, cancelled or stopped by a rate of 0, and then all of it was published. */
  method Run(
    bus: TokioBroadcastBus, src: Source, chunk: nat, codec: string, cap: Option<nat>, detect: seq<byte> -> Option<nat>,
    cut: Option<nat>)
    returns (packets: seq<Packet>, ending: Ending, ghost queue: seq<seq<byte>>)
    requires bus.Valid() && src.Valid() && src.pos == 0 && chunk > 0
    modifies bus, src
    ensures bus.Valid() && bus.log == old(bus.log) + packets
    ensures forall i :: 0 <= i < |packets| ==> packets[i].sequence == i
    ensures Flat(queue) == Queued(src.data, old(src.turns), chunk, codec == "mp3") && |packets| <= |queue|
    ensures DataOf(packets) == Flat(queue[..|packets|]) && DataOf(packets) <= Flat(queue)
    ensures var e := Reader(src.data, old(src.turns), chunk, codec == "mp3");
      var n := Allowed(cut, |queue|);
      && (ending.Panicked? <==> n > 0 && RateAfter(queue, cap, detect, n) == Some(0))
      && (!ending.Panicked? ==> |packets| == n)
      && (ending.Finished? <==> !ending.Panicked? && e.progress.Ended? && (cut.None? || cut.value > |queue|))
    ensures ending.Finished? ==>
      DataOf(packets) == src.data[Skipped(src.data, old(src.turns), chunk, codec == "mp3")..]
  {
    hide Flat, RateAfter, Stripped, PublishedAt, Fetch, DataOf;
    var chunks, clean := DrainReader(src, chunk, codec == "mp3");
    packets, ending := PublishQueue(bus, chunks, codec, cap, detect, CutBy(cut, chunks, clean));
    queue := chunks;
    PayloadsOf(packets, chunks, cap, detect, codec);
    DataOfPublished(packets, chunks, codec);
  }

  lemma PayloadsOf(
    packets: seq<Packet>, chunks: seq<seq<byte>>, cap: Option<nat>, detect: seq<byte> -> Option<nat>, codec: string)
    requires AllPublished(packets, chunks, cap, detect, codec)
    ensures forall i :: 0 <= i < |packets| ==>
      packets[i].sequence == i && packets[i].payload == Encoded(codec, chunks[i])
  {
    forall i | 0 <= i < |packets|
      ensures packets[i].sequence == i && packets[i].payload == Encoded(codec, chunks[i])
    {
      assert PublishedAt(packets[i], chunks, cap, detect, codec, i);
    }
  }
}
