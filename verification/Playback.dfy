/** Publishing encoded audio: an AutoDJ pass over its tracks, and an ingest that
    transcodes. Encoding and decoding are not modelled; what they yield is given. */
module Playback {
  import opened Bytes
  import opened Wrappers
  import opened Bus
  import opened OggCapture
  import opened Pacing
  import opened StagingSpec

  /** The encoded data of each packet, as the header capture is fed it. */
  function Pieces(packets: seq<Packet>): seq<seq<byte>> {
    seq(|packets|, i requires 0 <= i < |packets| => DataIn(packets[i]))
  }

  function HeaderIn(s: State): Option<seq<byte>> { if s.Done? then Some(s.header) else None }

  /** What is published during one pass, with its clock starting at 0. */
  class Publisher {
    const bus: TokioBroadcastBus
    /** Bytes per second of the encoded stream; 0 is not paced. */
    const rate: nat
    var sequence: nat
    var outputBytes: nat
    var now: nat
    /** The running header capture of a Vorbis stream, until it settles. */
    var capture: OggHeaderCapture?
    /** The mount's stored header pages. */
    var headers: Option<seq<byte>>
    /** After how many more chunks the pass is cancelled, if it is. */
    var cut: Option<nat>
    ghost const vorbis: bool
    /** The bus log when the pass started, and the packets published since. */
    ghost const before: seq<Packet>
    ghost var packets: seq<Packet>

    ghost predicate Valid()
      reads `packets, `sequence, `outputBytes, `capture, `headers, bus, capture
    {
      && bus.Valid() && bus.log == before + packets
      && sequence == |packets| && outputBytes == |DataOf(packets)| && Paced(packets, rate)
      && CaptureValid(PushFold(Pieces(packets)))
    }

    /** The stored header is what capturing the published stream gives; the capture
        is dropped once it settles. */
    ghost predicate CaptureValid(s: State)
      reads `capture, `headers, capture
    {
      && (!vorbis ==> capture == null && headers == None)
      && (vorbis ==> headers == HeaderIn(s) && (capture != null <==> s.Collecting?))
      && (capture != null ==> capture.Valid() && capture.Abstract() == s)
    }

    lemma BytesCounted()
      requires Valid()
      ensures outputBytes == |DataOf(packets)|
    {
    }

    /** All published bytes have had time to play. */
    ghost predicate CaughtUp()
      reads `outputBytes, `now
    {
      rate > 0 ==> Played(outputBytes, rate, now)
    }

    lemma CaughtUpMeans()
      requires CaughtUp()
      ensures rate > 0 ==> Played(outputBytes, rate, now)
    {
    }

    constructor (b: TokioBroadcastBus, r: nat, ogg: bool, cancelAfter: Option<nat>)
      requires b.Valid()
      ensures Valid() && CaughtUp() && bus == b && rate == r && vorbis == ogg
      ensures packets == [] && cut == cancelAfter
      ensures capture != null ==> fresh(capture)
    {
      bus, rate, vorbis, before, packets := b, r, ogg, b.log, [];
      sequence, outputBytes, now, headers, cut := 0, 0, 0, None, cancelAfter;
      if ogg {
        capture := new OggHeaderCapture();
      } else {
        capture := null;
      }
      new;
      PlayedNothing(rate, now);
      assert CaptureValid(PushFold(Pieces(packets))) by { NothingPublished(rate); }
      assert Paced(packets, rate) && DataOf(packets) == [] && before + packets == bus.log;
    }

    /** Feed the header capture, and store the header once it settles. */
    method Feed(data: seq<byte>, ghost s: State)
      requires CaptureValid(s) && (s.Collecting? ==> s.cursor <= |s.buf|)
      modifies this`capture, this`headers, capture
      ensures CaptureValid(PushState(s, data))
      ensures capture == old(capture) || capture == null
    {
      if capture != null {
        capture.Push(data);
        if capture.done || capture.failed {
          if capture.done { headers := Some(capture.buf); }
          capture := null;
        }
      }
    }

    /** `publish_encoded`, some time after the last event. */
    method PublishEncoded(data: seq<byte>, codec: string)
      requires Valid() && CaughtUp() && Clocked(packets, now)
      modifies this, bus, capture
      ensures Valid() && Clocked(packets, now) && old(packets) <= packets && cut == old(cut)
      ensures DataOf(packets) == old(DataOf(packets)) + data && outputBytes == old(outputBytes) + |data|
      ensures capture == old(capture) || capture == null
    {
      hide Played, Paced, DataOf, TokioBroadcastBus.Valid, PushState, PushFold, OggHeaderCapture.Valid, Pieces, Clocked;
      var at: nat :| at >= now;
      var packet := Packet(Encoded(codec, data), at, sequence);
      ClockedSnoc(packets, packet, now);
      PublishedNext(packets, packet, data, rate, outputBytes, now);
      assert before + (packets + [packet]) == before + packets + [packet];
      now := at;
      outputBytes := outputBytes + |data|;
      Feed(data, PushFold(Pieces(packets)));
      bus.Publish(packet);
      packets := packets + [packet];
      sequence := sequence + 1;
    }

    /** `pace`: false exactly when it must sleep and is cancelled. */
    method Pace() returns (go: bool)
      requires Valid() && Clocked(packets, now)
      modifies this`now
      ensures Valid() && Clocked(packets, now) && (go ==> CaughtUp())
      ensures !go <==> cut == Some(0) && !old(CaughtUp())
    {
      if rate == 0 { return true; }
      if !Played(outputBytes, rate, now) {
        if cut == Some(0) { return false; }
        now := SleepUntil(outputBytes, rate, now);
      }
      go := true;
    }

    /** `play_track` for a track whose chunks encode to `chunks`; nothing is published
        for a chunk that yields no data yet. It plays to the end exactly when it is not
        cancelled before. */
    method PlayTrack(chunks: seq<seq<byte>>, codec: string) returns (go: bool)
      requires Valid() && CaughtUp() && Clocked(packets, now)
      modifies this, bus, capture
      ensures Valid() && Clocked(packets, now) && old(packets) <= packets
      ensures DataOf(packets) == old(DataOf(packets)) + Flat(chunks[..Allowed(old(cut), |chunks|)])
      ensures go <==> old(cut).None? || old(cut).value > |chunks|
      ensures go ==> CaughtUp() && cut == CutAfter(old(cut), |chunks|)
      ensures capture == old(capture) || capture == null
    {
      hide Publisher.Valid, Publisher.CaughtUp, Clocked, Flat, DataOf;
      ghost var start, limit := DataOf(packets), Allowed(cut, |chunks|);
      NothingYet(chunks, start);
      for i := 0 to |chunks|
        invariant Valid() && CaughtUp() && Clocked(packets, now) && old(packets) <= packets && i <= limit
        invariant DataOf(packets) == start + Flat(chunks[..i]) && cut == CutAfter(old(cut), i)
        invariant capture == old(capture) || capture == null
      {
        if cut == Some(0) { return false; }
        cut := CutAfter(cut, 1);
        FlatExtend(chunks, i, start);
        if chunks[i] != [] {
          PublishEncoded(chunks[i], codec);
          go := Pace();
          if !go { return; }
        }
      }
      go := cut != Some(0);
    }

    /** `play_playlist`: the tracks in order, paced as one stream. */
    method PlayPlaylist(tracks: seq<seq<seq<byte>>>, codec: string) returns (completed: bool)
      requires Valid() && CaughtUp() && packets == []
      modifies this, bus, capture
      ensures Valid() && Clocked(packets, now)
      ensures DataOf(packets) == Flat(Chunks(tracks)[..Allowed(old(cut), |Chunks(tracks)|)])
      ensures completed <==> tracks == [] || old(cut).None? || old(cut).value > |Chunks(tracks)|
    {
      hide Publisher.Valid, Publisher.CaughtUp, Clocked, Flat, DataOf, Chunks, InOrder;
      ClockedFirst(now);
      NoTracks(tracks);
      for i := 0 to |tracks|
        invariant Valid() && CaughtUp() && Clocked(packets, now) && DataOf(packets) == Flat(Chunks(tracks[..i]))
        invariant var n := |Chunks(tracks[..i])|;
          n == Allowed(old(cut), n) && cut == CutAfter(old(cut), n) && (i > 0 ==> cut != Some(0))
        invariant capture == old(capture) || capture == null
      {
        TracksExtend(tracks, i, cut);
        if cut == Some(0) { return false; }
        completed := PlayTrack(tracks[i], codec);
        if !completed { return; }
      }
      assert tracks[..|tracks|] == tracks && Chunks(tracks)[..|Chunks(tracks)|] == Chunks(tracks);
      completed := true;
    }

    /** The publish loop of a transcoding ingest. Chunk `i` of the source yields
        `outputs[i]`, possibly nothing; until the first output the loop is paced by the
        source bytes at the source's rate, from then on by the output bytes. `taken`
        chunks are received; a rate of 0 ends it behind the first that has to be paced. */
    method Transcode(chunks: seq<seq<byte>>, outputs: seq<seq<byte>>, codec: string, sourceRate: nat -> Option<nat>)
      returns (taken: nat, ending: Ending, ghost times: seq<nat>)
      requires Valid() && CaughtUp() && packets == [] && |chunks| == |outputs|
      modifies this, bus, capture
      ensures taken <= Allowed(old(cut), |chunks|)
      ensures Valid() && Clocked(packets, now) && DataOf(packets) == Flat(outputs[..taken])
      ensures ending.Panicked? ==> taken > 0 && RateBehind(outputs, rate, sourceRate, taken) == Some(0)
      ensures NeverZero(outputs, rate, sourceRate, if ending.Panicked? then taken - 1 else taken)
      ensures !ending.Panicked? ==> taken == Allowed(old(cut), |chunks|)
      ensures ending.Finished? <==> !ending.Panicked? && (old(cut).None? || old(cut).value > |chunks|)
      ensures ending.Finished? ==> CaughtUp()
      ensures |times| <= taken <= |times| + 1 && (ending.Finished? ==> |times| == taken)
      ensures AllInTime(chunks, outputs, rate, sourceRate, times)
    {
      hide Publisher.Valid, Publisher.CaughtUp, Clocked, Flat, DataOf, RateBehind, NeverZero, AllInTime,
        Played;
      ClockedFirst(now);
      var received: nat := 0;
      taken, times := 0, [];
      NothingYet(chunks, []);
      NothingYet(outputs, []);
      NothingRated(outputs, rate, sourceRate);
      NothingInTime(chunks, outputs, rate, sourceRate);
      BytesCounted();
      while taken < |chunks|
        invariant Valid() && CaughtUp() && Clocked(packets, now) && taken <= Allowed(old(cut), |chunks|)
        invariant DataOf(packets) == Flat(outputs[..taken]) && cut == CutAfter(old(cut), taken)
        invariant NeverZero(outputs, rate, sourceRate, taken) && outputBytes == |DataOf(packets)|
        invariant received == |Flat(chunks[..taken])|
        invariant |times| == taken && AllInTime(chunks, outputs, rate, sourceRate, times)
        invariant capture == old(capture) || capture == null
      {
        if cut == Some(0) { return taken, Cancelled, times; }
        cut := CutAfter(cut, 1);
        FlatExtend(chunks, taken, []);
        FlatExtend(outputs, taken, []);
        received := received + |chunks[taken]|;
        if outputs[taken] != [] { PublishEncoded(outputs[taken], codec); }
        taken := taken + 1;
        var rated := if outputBytes > 0 then Some(rate) else sourceRate(taken);
        assert rated == RateBehind(outputs, rate, sourceRate, taken) by { RateIs(outputs, rate, sourceRate, taken); }
        if rated == Some(0) { return taken, Panicked, times; }
        NotZero(outputs, rate, sourceRate, taken);
        var go;
        if outputBytes > 0 { go := Pace(); } else { go := PaceSource(received, rated); }
        if !go { return taken, Cancelled, times; }
        CaughtUpMeans();
        NowIsInTime(chunks, outputs, rate, sourceRate, times, now);
        times := times + [now];
      }
      ending := if cut == Some(0) then Cancelled else Finished;
    }

    /** What flushing the encoder at the end of the source yields is published last,
        past the header capture. */
    method PublishTail(tail: seq<byte>, codec: string)
      requires Valid() && CaughtUp() && Clocked(packets, now)
      modifies this`now, this`packets, this`sequence, bus
      ensures bus.Valid() && bus.log == before + packets && Paced(packets, rate) && Clocked(packets, now)
      ensures sequence == |packets|
      ensures DataOf(packets) == old(DataOf(packets)) + tail
    {
      hide Played, Paced, DataOf, TokioBroadcastBus.Valid, PushState, PushFold, Pieces, Clocked;
      if tail == [] { return; }
      var at: nat :| at >= now;
      var packet := Packet(Encoded(codec, tail), at, sequence);
      ClockedSnoc(packets, packet, now);
      PublishedNext(packets, packet, tail, rate, outputBytes, now);
      bus.Publish(packet);
      now, packets, sequence := at, packets + [packet], sequence + 1;
    }

    /** Pacing by the source while the encoder has not yielded anything. */
    method PaceSource(received: nat, sourceRate: Option<nat>) returns (go: bool)
      requires Valid() && Clocked(packets, now) && outputBytes == 0 && sourceRate != Some(0)
      modifies this`now
      ensures Valid() && Clocked(packets, now) && CaughtUp()
      ensures go && sourceRate.Some? ==> Played(received, sourceRate.value, now)
      ensures !go <==> cut == Some(0) && sourceRate.Some? && !Played(received, sourceRate.value, old(now))
    {
      go := true;
      if sourceRate.Some? && !Played(received, sourceRate.value, now) {
        if cut == Some(0) {
          go := false;
        } else {
          now := SleepUntil(received, sourceRate.value, now);
        }
      }
      PlayedNothing(rate, now);
    }
  }

  /** One packet more, published once those before it had time to play. */
  lemma PublishedNext(packets: seq<Packet>, p: Packet, data: seq<byte>, rate: nat, bytes: nat, now: nat)
    requires Paced(packets, rate) && p.sequence == |packets| && DataIn(p) == data && bytes == |DataOf(packets)|
    requires now <= p.pts && (rate > 0 ==> Played(bytes, rate, now))
    ensures Paced(packets + [p], rate) && DataOf(packets + [p]) == DataOf(packets) + data
    ensures PushFold(Pieces(packets + [p])) == PushState(PushFold(Pieces(packets)), data)
  {
    hide Played, Paced, PushFold, PushState;
    if rate > 0 { PlayedLater(bytes, rate, now, p.pts); }
    PacedSnoc(packets, p, rate);
    DataOfSnoc(packets, p);
    assert Pieces(packets + [p]) == Pieces(packets) + [data];
    FoldSnoc(Pieces(packets), data);
  }

  /** The rate that paces the loop when `n` chunks were received, if any does. */
  function RateBehind(outputs: seq<seq<byte>>, rate: nat, sourceRate: nat -> Option<nat>, n: nat): Option<nat>
    requires n <= |outputs|
  {
    if |Flat(outputs[..n])| > 0 then Some(rate) else sourceRate(n)
  }

  /** Behind `n` chunks the loop goes on at `time`: when the output so far could have
      played at the encoder's rate or, before there is any, what was received at the
      source's. */
  ghost predicate InTime(
    chunks: seq<seq<byte>>, outputs: seq<seq<byte>>, rate: nat, sourceRate: nat -> Option<nat>, n: nat, time: nat)
    requires n <= |chunks| == |outputs|
  {
    var out := Flat(outputs[..n]);
    if |out| > 0 then rate > 0 ==> Played(|out|, rate, time)
    else sourceRate(n).Some? ==> Played(|Flat(chunks[..n])|, sourceRate(n).value, time)
  }

  ghost predicate AllInTime(
    chunks: seq<seq<byte>>, outputs: seq<seq<byte>>, rate: nat, sourceRate: nat -> Option<nat>, times: seq<nat>)
    requires |times| <= |chunks| == |outputs|
  {
    forall i :: 0 <= i < |times| ==> InTime(chunks, outputs, rate, sourceRate, i + 1, times[i])
  }

  lemma NothingInTime(chunks: seq<seq<byte>>, outputs: seq<seq<byte>>, rate: nat, sourceRate: nat -> Option<nat>)
    requires |chunks| == |outputs|
    ensures AllInTime(chunks, outputs, rate, sourceRate, [])
  {
  }

  lemma NowIsInTime(
    chunks: seq<seq<byte>>, outputs: seq<seq<byte>>, rate: nat, sourceRate: nat -> Option<nat>, times: seq<nat>,
    now: nat)
    requires |times| < |chunks| == |outputs| && AllInTime(chunks, outputs, rate, sourceRate, times)
    requires var n := |times| + 1;
      && (|Flat(outputs[..n])| > 0 && rate > 0 ==> Played(|Flat(outputs[..n])|, rate, now))
      && (|Flat(outputs[..n])| == 0 && sourceRate(n).Some? ==> Played(|Flat(chunks[..n])|, sourceRate(n).value, now))
    ensures AllInTime(chunks, outputs, rate, sourceRate, times + [now])
  {
    hide Played, Flat;
    var all := times + [now];
    forall i | 0 <= i < |all| ensures InTime(chunks, outputs, rate, sourceRate, i + 1, all[i]) {
      if i < |times| { assert InTime(chunks, outputs, rate, sourceRate, i + 1, times[i]); }
    }
  }

  /** None of the first `n` chunks is paced at a rate of 0. */
  ghost predicate NeverZero(outputs: seq<seq<byte>>, rate: nat, sourceRate: nat -> Option<nat>, n: nat) {
    n <= |outputs| && forall i :: 0 < i <= n ==> RateBehind(outputs, rate, sourceRate, i) != Some(0)
  }

  lemma NothingRated(outputs: seq<seq<byte>>, rate: nat, sourceRate: nat -> Option<nat>)
    ensures NeverZero(outputs, rate, sourceRate, 0)
  {
  }

  lemma NotZero(outputs: seq<seq<byte>>, rate: nat, sourceRate: nat -> Option<nat>, n: nat)
    requires 0 < n <= |outputs| && NeverZero(outputs, rate, sourceRate, n - 1)
    ensures RateBehind(outputs, rate, sourceRate, n) != Some(0) ==> NeverZero(outputs, rate, sourceRate, n)
  {
    hide RateBehind;
  }

  lemma RateIs(outputs: seq<seq<byte>>, rate: nat, sourceRate: nat -> Option<nat>, n: nat)
    requires n <= |outputs|
    ensures RateBehind(outputs, rate, sourceRate, n) ==
      if |Flat(outputs[..n])| > 0 then Some(rate) else sourceRate(n)
  {
  }

  lemma NothingYet(ds: seq<seq<byte>>, start: seq<byte>)
    ensures start + Flat(ds[..0]) == start && Flat(ds[..0]) == [] && DataOf([]) == []
  {
    assert start + [] == start;
  }

  lemma FlatExtend(ds: seq<seq<byte>>, i: nat, start: seq<byte>)
    requires i < |ds|
    ensures Flat(ds[..i + 1]) == Flat(ds[..i]) + ds[i]
    ensures start + Flat(ds[..i + 1]) == start + Flat(ds[..i]) + ds[i]
    ensures ds[i] == [] ==> Flat(ds[..i + 1]) == Flat(ds[..i])
  {
    assert ds[..i + 1] == ds[..i] + [ds[i]];
    FlatSnoc(ds[..i], ds[i]);
  }

  /** What all the tracks encode to, as one stream of pieces. */
  function Chunks(tracks: seq<seq<seq<byte>>>): seq<seq<byte>> {
    if tracks == [] then [] else Chunks(tracks[..|tracks| - 1]) + tracks[|tracks| - 1]
  }

  lemma NoTracks(tracks: seq<seq<seq<byte>>>)
    ensures Chunks(tracks[..0]) == [] && Flat([]) == [] && DataOf([]) == []
  {
  }

  lemma {:induction false} ChunksPrefix(tracks: seq<seq<seq<byte>>>, n: nat)
    requires n <= |tracks|
    ensures Chunks(tracks[..n]) <= Chunks(tracks)
    decreases |tracks| - n
  {
    if n == |tracks| {
      assert tracks[..n] == tracks;
    } else {
      ChunksPrefix(tracks, n + 1);
      assert tracks[..n + 1][..n] == tracks[..n];
    }
  }

  /** One track more, or the part of it that is taken before the pass is cancelled. */
  lemma TracksExtend(tracks: seq<seq<seq<byte>>>, i: nat, cut: Option<nat>)
    requires i < |tracks|
    ensures var all, before, chunks := Chunks(tracks), Chunks(tracks[..i]), tracks[i];
      var k := Allowed(cut, |chunks|);
      && Chunks(tracks[..i + 1]) == before + chunks
      && |before| + |chunks| <= |all|
      && Flat(all[..|before|]) == Flat(before)
      && Flat(all[..|before| + k]) == Flat(before) + Flat(chunks[..k])
      && Flat(before + chunks) == Flat(before) + Flat(chunks)
      && chunks[..|chunks|] == chunks
  {
    hide Flat;
    var all, before, chunks := Chunks(tracks), Chunks(tracks[..i]), tracks[i];
    var k := Allowed(cut, |chunks|);
    assert tracks[..i + 1][..i] == tracks[..i];
    ChunksPrefix(tracks, i + 1);
    TakeMore(all, before, chunks, k);
    FlatAdd(before, chunks[..k]);
    FlatAdd(before, chunks);
  }

  lemma TakeMore<T>(all: seq<T>, a: seq<T>, b: seq<T>, k: nat)
    requires a + b <= all && k <= |b|
    ensures all[..|a| + k] == a + b[..k] && all[..|a|] == a
  {
  }

  lemma NothingPublished(rate: nat)
    ensures PushFold(Pieces([])) == START && DataOf([]) == [] && Paced([], rate)
  {
    assert Pieces([]) == [];
  }

  lemma FoldSnoc(ds: seq<seq<byte>>, d: seq<byte>)
    ensures PushFold(ds + [d]) == PushState(PushFold(ds), d)
  {
    assert (ds + [d])[..|ds|] == ds;
  }
}
