/** Interleaving audio with ICY metadata: a block every `interval` audio bytes, the
    first byte of which gives its length in units of sixteen. */
module IcySpec {
  import opened Bytes
  import opened Wrappers

  const BLOCK := 16
  const MAX_METADATA := 255 * BLOCK

  function Blocks(raw: seq<byte>): nat { (|raw| + BLOCK - 1) / BLOCK }

  function Padded(raw: seq<byte>): seq<byte> {
    raw + Zeros(BLOCK * Blocks(raw) - |raw|)
  }

  /** The length byte saturates. */
  function Frame(raw: seq<byte>): seq<byte> {
    [if Blocks(raw) <= 255 then Blocks(raw) else 255] + Padded(raw)
  }

  /** The metadata text of successive blocks. */
  type Metadata = nat -> seq<byte>

  /** Audio that starts `since` bytes behind a block, with block `k` the next one. */
  function Mux(audio: seq<byte>, interval: nat, since: nat, k: nat, meta: Metadata): seq<byte>
    requires since < interval
    decreases |audio|
  {
    var space := interval - since;
    if |audio| < space then audio
    else audio[..space] + (Frame(meta(k)) + Mux(audio[space..], interval, 0, k + 1, meta))
  }

  /** How many blocks `n` bytes of audio behind a block bring, and how many bytes
      remain behind the last of them. */
  function Turns(n: nat, interval: nat): nat
    requires interval > 0
  {
    if n < interval then 0 else 1 + Turns(n - interval, interval)
  }

  function Left(n: nat, interval: nat): (r: nat)
    requires interval > 0
    ensures r < interval
  {
    if n < interval then n else Left(n - interval, interval)
  }

  // ── Any split into packets ────────────────────────────────────────────────

  /** What a listener was sent, how much audio followed the last block, and how many
      blocks there were. */
  datatype Sink = Sink(written: seq<byte>, since: nat, blocks: nat)

  /** The sink once `audio` is written to it. */
  function Written(s: Sink, audio: seq<byte>, interval: nat, meta: Metadata): (r: Sink)
    requires s.since < interval
    ensures r.since < interval
  {
    Sink(
      s.written + Mux(audio, interval, s.since, s.blocks, meta),
      Left(s.since + |audio|, interval), s.blocks + Turns(s.since + |audio|, interval))
  }

  /** Audio that does not fill the interval. */
  function Partial(s: Sink, chunk: seq<byte>): Sink {
    s.(written := s.written + chunk, since := s.since + |chunk|)
  }

  /** Audio that fills the interval, and the block behind it. */
  function Full(s: Sink, chunk: seq<byte>, meta: Metadata): Sink {
    Sink(s.written + chunk + Frame(meta(s.blocks)), 0, s.blocks + 1)
  }

  lemma WritePartial(s: Sink, a: seq<byte>, b: seq<byte>, interval: nat, meta: Metadata)
    requires s.since + |a| < interval
    ensures Written(s, a + b, interval, meta) == Written(Partial(s, a), b, interval, meta)
  {
    var left := interval - s.since - |a|;
    if |b| < left {
      assert s.written + (a + b) == s.written + a + b;
    } else {
      var more := Frame(meta(s.blocks)) + Mux(b[left..], interval, 0, s.blocks + 1, meta);
      assert (a + b)[..interval - s.since] == a + b[..left] && (a + b)[interval - s.since..] == b[left..];
      assert s.written + (a + b[..left] + more) == s.written + a + (b[..left] + more);
    }
  }

  lemma WriteFull(s: Sink, a: seq<byte>, b: seq<byte>, interval: nat, meta: Metadata)
    requires s.since + |a| == interval && |a| > 0
    ensures Written(s, a + b, interval, meta) == Written(Full(s, a, meta), b, interval, meta)
  {
    var rest := Mux(b, interval, 0, s.blocks + 1, meta);
    assert (a + b)[..|a|] == a && (a + b)[|a|..] == b;
    assert s.written + (a + (Frame(meta(s.blocks)) + rest)) == s.written + a + Frame(meta(s.blocks)) + rest;
  }

  /** The sink once `chunk`, at most what the interval still has room for, is written. */
  function AfterChunk(s: Sink, chunk: seq<byte>, interval: nat, meta: Metadata): Sink {
    if s.since + |chunk| >= interval then Full(s, chunk, meta) else Partial(s, chunk)
  }

  lemma WriteTurn(s: Sink, chunk: seq<byte>, rest: seq<byte>, interval: nat, meta: Metadata)
    requires 0 < |chunk| <= interval - s.since
    ensures AfterChunk(s, chunk, interval, meta).since < interval
    ensures Written(AfterChunk(s, chunk, interval, meta), rest, interval, meta) ==
      Written(s, chunk + rest, interval, meta)
  {
    if s.since + |chunk| >= interval {
      WriteFull(s, chunk, rest, interval, meta);
    } else {
      WritePartial(s, chunk, rest, interval, meta);
    }
  }

  /** Writing goes on where it left off: only the audio counts, not its packets. */
  lemma {:induction false} WrittenConcat(s: Sink, a: seq<byte>, b: seq<byte>, interval: nat, meta: Metadata)
    requires s.since < interval
    ensures Written(s, a + b, interval, meta) == Written(Written(s, a, interval, meta), b, interval, meta)
    decreases |a|
  {
    if s.since + |a| < interval {
      WritePartial(s, a, b, interval, meta);
      WritePartial(s, a, [], interval, meta);
      WrittenNothing(Partial(s, a), interval, meta);
      assert a + [] == a;
    } else {
      var head, tail := a[..interval - s.since], a[interval - s.since..];
      assert a == head + tail && a + b == head + (tail + b);
      WriteFull(s, head, tail + b, interval, meta);
      WriteFull(s, head, tail, interval, meta);
      WrittenConcat(Full(s, head, meta), tail, b, interval, meta);
    }
  }

  lemma WrittenNothing(s: Sink, interval: nat, meta: Metadata)
    requires s.since < interval
    ensures Written(s, [], interval, meta) == s
  {
    assert s.written + [] == s.written;
  }

  /** One block for every whole interval. */
  lemma {:induction false} TurnsAndLeft(n: nat, interval: nat)
    requires interval > 0
    ensures n == interval * Turns(n, interval) + Left(n, interval)
  {
    if n >= interval { TurnsAndLeft(n - interval, interval); }
  }

  // ── Demultiplexing ────────────────────────────────────────────────────────

  datatype Demuxed = Demuxed(audio: seq<byte>, blocks: seq<seq<byte>>)

  /** What a client makes of a stream, until it is cut off inside a block. */
  function Demux(s: seq<byte>, interval: nat, since: nat): Demuxed
    requires since < interval
    decreases |s|
  {
    var space := interval - since;
    if |s| <= space then Demuxed(s, [])
    else
      var n: nat := BLOCK * s[space];
      if |s| < space + 1 + n then Demuxed(s[..space], [])
      else
        var rest := Demux(s[space + 1 + n..], interval, 0);
        Demuxed(s[..space] + rest.audio, [s[space + 1..space + 1 + n]] + rest.blocks)
  }

  /** The blocks that `n` metadata texts from number `k` on become. */
  function PaddedFrom(meta: Metadata, k: nat, n: nat): seq<seq<byte>>
    decreases n
  {
    if n == 0 then [] else [Padded(meta(k))] + PaddedFrom(meta, k + 1, n - 1)
  }

  predicate AllFit(meta: Metadata, k: nat, n: nat)
    decreases n
  {
    n == 0 || (|meta(k)| <= MAX_METADATA && AllFit(meta, k + 1, n - 1))
  }

  /** The first interval of the stream. */
  lemma {:induction false} MuxStep(audio: seq<byte>, interval: nat, since: nat, k: nat, meta: Metadata)
    requires since < interval
    ensures var space := interval - since;
      if |audio| < space then Mux(audio, interval, since, k, meta) == audio && Turns(since + |audio|, interval) == 0
      else
        && Mux(audio, interval, since, k, meta)
          == audio[..space] + (Frame(meta(k)) + Mux(audio[space..], interval, 0, k + 1, meta))
        && Turns(since + |audio|, interval) == 1 + Turns(0 + |audio[space..]|, interval)
  {
    hide Frame;
  }

  lemma {:induction false} BlocksStep(meta: Metadata, k: nat, n: nat)
    requires n > 0 && AllFit(meta, k, n)
    ensures |meta(k)| <= MAX_METADATA && AllFit(meta, k + 1, n - 1)
    ensures PaddedFrom(meta, k, n) == [Padded(meta(k))] + PaddedFrom(meta, k + 1, n - 1)
  {
    hide Padded;
  }

  lemma {:induction false} DemuxTail(audio: seq<byte>, interval: nat, since: nat, meta: Metadata, k: nat)
    requires since < interval && |audio| < interval - since
    ensures Demux(audio, interval, since) == Demuxed(audio, PaddedFrom(meta, k, 0))
  {
  }

  /** A client gets the audio back, and each block's text with its padding. */
  lemma {:induction false} DemuxInvertsMux(audio: seq<byte>, interval: nat, since: nat, k: nat, meta: Metadata)
    requires since < interval && AllFit(meta, k, Turns(since + |audio|, interval))
    ensures Demux(Mux(audio, interval, since, k, meta), interval, since) ==
      Demuxed(audio, PaddedFrom(meta, k, Turns(since + |audio|, interval)))
    decreases |audio|
  {
    hide Frame, Mux, Turns, AllFit, PaddedFrom, Demux, Padded;
    MuxStep(audio, interval, since, k, meta);
    var space := interval - since;
    if |audio| < space {
      DemuxTail(audio, interval, since, meta, k);
    } else {
      var head, tail := audio[..space], audio[space..];
      BlocksStep(meta, k, Turns(since + |audio|, interval));
      DemuxInvertsMux(tail, interval, 0, k + 1, meta);
      DemuxFrame(head, meta(k), Mux(tail, interval, 0, k + 1, meta), interval, since);
      assert audio == head + tail;
    }
  }

  lemma PaddedLength(raw: seq<byte>)
    ensures BLOCK * Blocks(raw) >= |raw| && |Padded(raw)| == BLOCK * Blocks(raw)
    ensures Blocks(raw) <= 255 <==> |raw| <= MAX_METADATA
  {
  }

  lemma {:induction false} DemuxFrame(head: seq<byte>, raw: seq<byte>, rest: seq<byte>, interval: nat, since: nat)
    requires since < interval && |head| == interval - since && |raw| <= MAX_METADATA
    ensures var d := Demux(rest, interval, 0);
      Demux(head + (Frame(raw) + rest), interval, since) == Demuxed(head + d.audio, [Padded(raw)] + d.blocks)
  {
    PaddedLength(raw);
    var s := head + (Frame(raw) + rest);
    var space, n := |head|, BLOCK * Blocks(raw);
    assert s[space] == Blocks(raw) && s[..space] == head;
    assert s[space + 1..space + 1 + n] == Padded(raw);
    assert s[space + 1 + n..] == rest;
  }

  // ── One block ─────────────────────────────────────────────────────────────

  /** The text of a block without its padding. */
  function Unpad(block: seq<byte>): seq<byte> {
    if block != [] && block[|block| - 1] == 0 then Unpad(block[..|block| - 1]) else block
  }

  lemma {:induction false} UnpadZeros(raw: seq<byte>, n: nat)
    requires raw == [] || raw[|raw| - 1] != 0
    ensures Unpad(raw + Zeros(n)) == raw
    decreases n
  {
    if n == 0 {
      assert raw + Zeros(0) == raw;
    } else {
      var block := raw + Zeros(n);
      assert block[..|block| - 1] == raw + Zeros(n - 1) && block[|block| - 1] == 0;
      UnpadZeros(raw, n - 1);
    }
  }

  /** A client reading a block gets its text, and the stream behind it in place,
      exactly when the text is short enough for the length byte. */
  lemma FrameReadIff(raw: seq<byte>, rest: seq<byte>)
    requires raw == [] || raw[|raw| - 1] != 0
    ensures var s := Frame(raw) + rest;
      var n := BLOCK * s[0];
      && 1 + n <= |s|
      && (Unpad(s[1..1 + n]) == raw && s[1 + n..] == rest <==> |raw| <= 4080)
  {
    PaddedLength(raw);
    UnpadZeros(raw, BLOCK * Blocks(raw) - |raw|);
    var s := Frame(raw) + rest;
    if |raw| <= MAX_METADATA {
      assert s[1..1 + BLOCK * Blocks(raw)] == Padded(raw);
    }
  }
}

/** The listener's writer. */
module Icy {
  import opened Bytes
  import opened Wrappers
  import opened Bus
  import opened IcySpec
  import opened Pacing

  /** `StreamTitle='` */
  const TITLE_OPEN: seq<byte> := [83, 116, 114, 101, 97, 109, 84, 105, 116, 108, 101, 61, 39]
  /** `';StreamUrl='` */
  const URL_OPEN: seq<byte> := [39, 59, 83, 116, 114, 101, 97, 109, 85, 114, 108, 61, 39]
  /** `';` */
  const CLOSE: seq<byte> := [39, 59]

  type Text = seq<byte>

  /** What names a stream: the title that was set, the source's own headers, and the
      mount's configuration. */
  datatype Naming = Naming(
    title: Option<Text>, overlayName: Option<Text>, overlayUrl: Option<Text>, mountName: Option<Text>,
    mountUrl: Option<Text>)

  function FirstOf(a: Option<Text>, b: Option<Text>): Option<Text> { if a.Some? then a else b }

  /** The metadata text; nothing at all when there is neither title nor URL. */
  function StreamText(n: Naming): (raw: Text)
    ensures raw == [] || raw[|raw| - 1] != 0
  {
    var title := FirstOf(n.title, FirstOf(n.overlayName, n.mountName)).GetOr([]);
    var url := FirstOf(n.overlayUrl, n.mountUrl).GetOr([]);
    if title == [] && url == [] then [] else TITLE_OPEN + title + URL_OPEN + url + CLOSE
  }

  /** The title that was set, or else the name in the source's headers, or else the
      name in the mount's configuration, or else nothing. */
  predicate IsTitle(title: Text, n: Naming) {
    && (n.title.Some? ==> title == n.title.value)
    && (n.title.None? && n.overlayName.Some? ==> title == n.overlayName.value)
    && (n.title.None? && n.overlayName.None? && n.mountName.Some? ==> title == n.mountName.value)
    && (n.title.None? && n.overlayName.None? && n.mountName.None? ==> title == [])
  }

  /** The URL in the source's headers, or else the one in the mount's configuration. */
  predicate IsUrl(url: Text, n: Naming) {
    && (n.overlayUrl.Some? ==> url == n.overlayUrl.value)
    && (n.overlayUrl.None? && n.mountUrl.Some? ==> url == n.mountUrl.value)
    && (n.overlayUrl.None? && n.mountUrl.None? ==> url == [])
  }

  lemma StreamTextNames(n: Naming, title: Text, url: Text)
    requires IsTitle(title, n) && IsUrl(url, n)
    ensures StreamText(n) == if title == [] && url == [] then [] else
      Ascii("StreamTitle='") + title + Ascii("';StreamUrl='") + url + Ascii("';")
  {
    assert TITLE_OPEN == Ascii("StreamTitle='");
    assert URL_OPEN == Ascii("';StreamUrl='");
    assert CLOSE == Ascii("';");
  }

  // ── A player reading the text ─────────────────────────────────────────────

  predicate ClosesAt(s: Text, i: nat) { i + 1 < |s| && s[i] == '\'' as int && s[i + 1] == ';' as int }

  ghost predicate HasClose(s: Text) { exists i: nat :: ClosesAt(s, i) }

  /** Where the first `';` is, or the end. */
  function ToClose(s: Text): (i: nat)
    ensures i <= |s| && (i < |s| ==> ClosesAt(s, i))
  {
    if s == [] || ClosesAt(s, 0) then 0 else 1 + ToClose(s[1..])
  }

  /** A text in front of a `';` is read to its end exactly when it has none inside. */
  lemma {:induction false} ToCloseIff(t: Text, rest: Text)
    requires ClosesAt(rest, 0)
    ensures ToClose(t + rest) <= |t| && (ToClose(t + rest) == |t| <==> !HasClose(t))
  {
    var s := t + rest;
    if t == [] {
      assert s == rest;
    } else {
      assert s[1..] == t[1..] + rest;
      assert s[1] == if |t| > 1 then t[1] else rest[0];
      assert ClosesAt(s, 0) <==> ClosesAt(t, 0);
      ToCloseIff(t[1..], rest);
      if HasClose(t[1..]) {
        var i: nat :| ClosesAt(t[1..], i);
        assert ClosesAt(t, i + 1);
      } else if i: nat :| ClosesAt(t, i) {
        assert i == 0 || ClosesAt(t[1..], i - 1);
      }
    }
  }

  /** What a field that opens with `mark` holds, up to the first `';`, and what follows. */
  function ReadField(mark: Text, raw: Text): Option<(Text, Text)> {
    if !(mark <= raw) then None else
    var s := raw[|mark|..];
    Some((s[..ToClose(s)], s[ToClose(s)..]))
  }

  lemma ReadFieldIff(mark: Text, t: Text, rest: Text)
    requires ClosesAt(rest, 0)
    ensures ReadField(mark, mark + (t + rest)).Some?
    ensures HasClose(t) ==> ReadField(mark, mark + (t + rest)).value.0 != t
    ensures !HasClose(t) ==> ReadField(mark, mark + (t + rest)) == Some((t, rest))
  {
    ToCloseIff(t, rest);
    assert (mark + (t + rest))[|mark|..] == t + rest;
    assert (t + rest)[..|t|] == t && (t + rest)[|t|..] == rest;
  }

  datatype Tags = Tags(title: Text, url: Text)

  function ReadBoth(titleMark: Text, urlMark: Text, raw: Text): Option<Tags> {
    var title := ReadField(titleMark, raw);
    if title.None? then None else
    var url := ReadField(urlMark, title.value.1);
    if url.None? then None else Some(Tags(title.value.0, url.value.0))
  }

  lemma ReadBothIff(titleMark: Text, urlMark: Text, close: Text, title: Text, url: Text)
    requires ClosesAt(close, 0) && ClosesAt(urlMark, 0)
    ensures ReadBoth(titleMark, urlMark, titleMark + title + urlMark + url + close) == Some(Tags(title, url)) <==>
      !HasClose(title) && !HasClose(url)
  {
    hide HasClose, ReadField;
    var behind := urlMark + (url + close);
    assert titleMark + title + urlMark + url + close == titleMark + (title + behind);
    ReadFieldIff(titleMark, title, behind);
    ReadFieldIff(urlMark, url, close);
  }

  /** A player takes what is between each opening and the `';` that comes first. */
  function ReadTags(raw: Text): Option<Tags> {
    ReadBoth(Ascii("StreamTitle='"), Ascii("';StreamUrl='"), raw)
  }

  /** A player reads title and URL back exactly when neither has a `';` inside: nothing
      in them is escaped. */
  lemma ReadTagsIff(n: Naming, title: Text, url: Text)
    requires IsTitle(title, n) && IsUrl(url, n) && (title != [] || url != [])
    ensures ReadTags(StreamText(n)) == Some(Tags(title, url)) <==> !HasClose(title) && !HasClose(url)
  {
    hide StreamText, HasClose, ReadBoth, IsTitle, IsUrl;
    StreamTextNames(n, title, url);
    ReadBothIff(Ascii("StreamTitle='"), Ascii("';StreamUrl='"), Ascii("';"), title, url);
  }

  /** `build_icy_frame` */
  method BuildIcyFrame(n: Naming) returns (frame: seq<byte>)
    ensures frame == Frame(StreamText(n))
  {
    var raw := StreamText(n);
    if raw == [] {
      PaddedLength([]);
      return [0];
    }
    var blocks := (|raw| + 15) / 16;
    PaddedLength(raw);
    frame := [if blocks <= 255 then blocks else 255];
    frame := frame + raw;
    frame := frame + Zeros(16 * blocks - |raw|);
  }

  class IcyWriter {
    const metaint: nat
    var bytesSinceMeta: nat
    var bytesSent: nat
    /** Everything written to the listener. */
    ghost var written: seq<byte>
    /** How many blocks were written, and how the stream is named when each is. */
    var blocks: nat
    const naming: nat -> Naming

    ghost function Meta(): Metadata { k => StreamText(naming(k)) }

    predicate Valid()
      reads this
    {
      bytesSinceMeta < metaint
    }

    constructor (interval: nat, naming_: nat -> Naming)
      requires interval > 0
      ensures Valid() && metaint == interval && naming == naming_
      ensures bytesSinceMeta == 0 && bytesSent == 0 && written == [] && blocks == 0
    {
      metaint, naming, bytesSinceMeta, bytesSent, written, blocks := interval, naming_, 0, 0, [], 0;
    }

    ghost function Abstract(): Sink
      reads this
    {
      Sink(written, bytesSinceMeta, blocks)
    }

    /** `write_with_icy` for the data of one packet. */
    method Write(data: seq<byte>)
      requires Valid()
      modifies this
      ensures Valid() && bytesSent == old(bytesSent) + |data|
      ensures Abstract() == Written(old(Abstract()), data, metaint, Meta())
    {
      var offset := 0;
      assert data[0..] == data;
      while offset < |data|
        invariant Valid() && offset <= |data| && bytesSent == old(bytesSent) + offset
        invariant Written(Abstract(), data[offset..], metaint, Meta()) ==
          Written(old(Abstract()), data, metaint, Meta())
      {
        var space := metaint - bytesSinceMeta;
        var end := if offset + space < |data| then offset + space else |data|;
        assert data[offset..] == data[offset..end] + data[end..];
        WriteTurn(Abstract(), data[offset..end], data[end..], metaint, Meta());
        WriteChunk(data[offset..end]);
        offset := end;
      }
      assert data[|data|..] == [];
      WrittenNothing(Abstract(), metaint, Meta());
    }

    /** Write audio that stays within the interval, and the block if it fills it. */
    method WriteChunk(chunk: seq<byte>)
      requires Valid() && 0 < |chunk| <= metaint - bytesSinceMeta
      modifies this
      ensures Valid() && bytesSent == old(bytesSent) + |chunk|
      ensures Abstract() == AfterChunk(old(Abstract()), chunk, metaint, Meta())
    {
      written := written + chunk;
      bytesSent := bytesSent + |chunk|;
      bytesSinceMeta := bytesSinceMeta + |chunk|;
      if bytesSinceMeta >= metaint {
        var frame := BuildIcyFrame(naming(blocks));
        written := written + frame;
        blocks := blocks + 1;
        bytesSinceMeta := 0;
      }
    }

    /** The listener loop over a stream of packets; decoded packets are passed over. */
    method Run(packets: seq<Packet>)
      requires Valid()
      modifies this
      ensures Valid() && bytesSent == old(bytesSent) + |DataOf(packets)|
      ensures Abstract() == Written(old(Abstract()), DataOf(packets), metaint, Meta())
    {
      WrittenNothing(Abstract(), metaint, Meta());
      for i := 0 to |packets|
        invariant Valid() && bytesSent == old(bytesSent) + |DataOf(packets[..i])|
        invariant Abstract() == Written(old(Abstract()), DataOf(packets[..i]), metaint, Meta())
      {
        assert packets[..i + 1] == packets[..i] + [packets[i]];
        DataOfSnoc(packets[..i], packets[i]);
        WrittenConcat(old(Abstract()), DataOf(packets[..i]), DataIn(packets[i]), metaint, Meta());
        if packets[i].payload.Encoded? {
          Write(packets[i].payload.data);
        } else {
          WrittenNothing(Abstract(), metaint, Meta());
        }
      }
      assert packets[..|packets|] == packets;
    }
  }

  /** A fresh listener, any packets: the client's demultiplexer gets the audio bytes of
      all packets and the metadata blocks, one for every interval of audio. */
  method Listen(interval: nat, naming: nat -> Naming, packets: seq<Packet>) returns (w: IcyWriter)
    requires interval > 0
    ensures fresh(w) && w.written == Mux(DataOf(packets), interval, 0, 0, w.Meta())
    ensures var n := Turns(|DataOf(packets)|, interval);
      w.blocks == n && w.naming == naming &&
      (AllFit(w.Meta(), 0, n) ==>
        Demux(w.written, interval, 0) == Demuxed(DataOf(packets), PaddedFrom(w.Meta(), 0, n)))
  {
    w := new IcyWriter(interval, naming);
    w.Run(packets);
    ghost var audio := DataOf(packets);
    assert [] + Mux(audio, interval, 0, 0, w.Meta()) == Mux(audio, interval, 0, 0, w.Meta());
    if AllFit(w.Meta(), 0, Turns(|audio|, interval)) {
      DemuxInvertsMux(audio, interval, 0, 0, w.Meta());
    }
  }
}
