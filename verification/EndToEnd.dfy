/** From a source client's chunked upload to a listener's player. */
module EndToEnd {
  import opened Bytes
  import opened Wrappers
  import opened Bus
  import opened ChunkedRoundTrip
  import opened Ingest
  import opened IngestSpec
  import opened IcySpec
  import opened Pacing
  import opened Scripts
  import Chunked
  import Icy

  /** Reading that nothing interrupts ends at the end of the input. */
  lemma {:induction false} Uninterrupted(length: nat, chunk: nat, target: nat, pos: nat, turns: seq<Turn>)
    requires pos <= length && chunk > 0 && Interrupted !in turns
    ensures var s := Fetch(length, chunk, target, pos, turns);
      Interrupted !in s.turns && !s.progress.Broken? && (target > length ==> s.progress.Ended?)
    decreases length - pos
  {
    var turn := NextTurn(turns, chunk);
    if pos < target && pos < length {
      Uninterrupted(length, chunk, target, pos + Taken(turn.n, chunk, length - pos), Tail(turns));
    }
  }

  lemma ReaderEnds(input: seq<byte>, turns: seq<Turn>, chunk: nat, mp3: bool)
    requires chunk > 0 && Interrupted !in turns
    ensures Reader(input, turns, chunk, mp3).progress.Ended?
  {
    hide Fetch;
    if mp3 { Uninterrupted(|input|, chunk, Target(input), 0, turns); }
    var p := Prefix(input, turns, chunk, mp3);
    Uninterrupted(|input|, chunk, |input| + 1, p.pos, p.turns);
  }

  predicate NeverRatedZero(chunks: seq<seq<byte>>, cap: Option<nat>, detect: seq<byte> -> Option<nat>) {
    cap != Some(0) && forall i :: 0 <= i < |chunks| ==> detect(chunks[i]) != Some(0)
  }

  lemma {:induction false} RateIsNotZero(
    chunks: seq<seq<byte>>, cap: Option<nat>, detect: seq<byte> -> Option<nat>, n: nat)
    requires n <= |chunks| && NeverRatedZero(chunks, cap, detect)
    ensures RateAfter(chunks, cap, detect, n) != Some(0)
  {
    if n > 0 { RateIsNotZero(chunks, cap, detect, n - 1); }
  }

  /** A chunked upload, read whatever the sizes of its reads, ingested onto the bus of a
      fresh mount in whatever pieces, and written to a listener that was there from the
      start: unless something fails, interrupts it or rates it at 0, the player gets
      exactly the payload bytes behind the stripped prefix, and one metadata block for
      every interval of them. */
  method Broadcast(
    ghost b: Body, ghost rest: seq<byte>, upload: seq<byte>, script: seq<Chunked.Answer>, rooms: seq<nat>,
    turns: seq<Turn>, chunk: nat, codec: string, cap: Option<nat>, detect: seq<byte> -> Option<nat>,
    burst: nat, interval: nat, naming: nat -> Icy.Naming)
    returns (listener: Icy.IcyWriter, ending: Ending, ghost queue: seq<seq<byte>>)
    requires WellFormed(b) && upload == Encode(b) + rest && EnoughPolls(script, rooms, |Payloads(b.chunks)|)
    requires chunk > 0 && interval > 0
    ensures Interrupted !in turns && NeverRatedZero(queue, cap, detect) ==> ending.Finished?
    ensures ending.Finished? ==>
      var all := Payloads(b.chunks);
      var audio := all[Skipped(all, turns, chunk, codec == "mp3")..];
      var n := Turns(|audio|, interval);
      listener.naming == naming &&
      (AllFit(listener.Meta(), 0, n) ==>
        Demux(listener.written, interval, 0) == Demuxed(audio, PaddedFrom(listener.Meta(), 0, n)))
  {
    hide WellFormed, Encode, Payloads, EnoughPolls, Skipped, Demux, PaddedFrom, AllFit, RateAfter, NeverRatedZero,
      Queued, Reader;
    var body, ended, poll, consumed := ReadEncoded(b, rest, upload, script, rooms);
    var src := new Source(body, turns);
    var bus := new TokioBroadcastBus(burst);
    var packets;
    packets, ending, queue := Run(bus, src, chunk, codec, cap, detect, None);
    if Interrupted !in turns && NeverRatedZero(queue, cap, detect) {
      ReaderEnds(body, turns, chunk, codec == "mp3");
      RateIsNotZero(queue, cap, detect, |queue|);
    }
    assert bus.log == packets;
    listener := Icy.Listen(interval, naming, bus.log);
  }
}
