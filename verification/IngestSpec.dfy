/** The bytes an MP3 source's ingest does not pass on: an ID3v2 tag (sections 3.1 and
    6.2 of ID3v2.4) and the metadata frame behind it. */
module IngestSpec {
  import opened Bytes
  import opened Wrappers
  import opened Scripts
  import opened Codec

  /** Post-tag bytes gathered before looking for the metadata frame. */
  const PROBE_BYTES := 2048

  const ID3: seq<byte> := [0x49, 0x44, 0x33]
  const XING: seq<byte> := [0x58, 0x69, 0x6E, 0x67]
  const INFO: seq<byte> := [0x49, 0x6E, 0x66, 0x6F]
  const VBRI: seq<byte> := [0x56, 0x42, 0x52, 0x49]

  /** Seven bits of each size byte count. */
  function Low7(b: byte): nat { b % 128 }

  /** Header and body of the tag at the start of `d`; 0 when there is none. */
  function Id3Total(d: seq<byte>): nat {
    if |d| < 10 || d[..3] != ID3 then 0
    else 10 + Low7(d[6]) * 0x20_0000 + Low7(d[7]) * 0x4000 + Low7(d[8]) * 0x80 + Low7(d[9])
  }

  /** A size as four bytes of seven bits each, the most significant first. */
  function Syncsafe(n: nat): seq<byte> { [n / 0x20_0000 % 128, n / 0x4000 % 128, n / 0x80 % 128, n % 128] }

  /** Reading a tag header gives back the size that was written into it. */
  lemma TagSizeRoundTrip(version: seq<byte>, n: nat, rest: seq<byte>)
    requires |version| == 3 && n < 0x1000_0000
    ensures Id3Total(ID3 + version + Syncsafe(n) + rest) == 10 + n
  {
    var d := ID3 + version + Syncsafe(n) + rest;
    assert d[..3] == ID3;
    assert d[6] == Syncsafe(n)[0] && d[7] == Syncsafe(n)[1] && d[8] == Syncsafe(n)[2] && d[9] == Syncsafe(n)[3];
    SevenBits(n);
  }

  /** The top bit of a size byte is passed over. */
  lemma TopBitIsIgnored(b: byte)
    requires b < 128
    ensures Low7(b) == Low7(b + 128) == b
  {
  }

  lemma SevenBits(n: nat)
    requires n < 0x1000_0000
    ensures n == n / 0x20_0000 % 128 * 0x20_0000 + n / 0x4000 % 128 * 0x4000 + n / 0x80 % 128 * 0x80 + n % 128
  {
    Septet(n, 0x80);
    Septet(n, 0x4000);
    assert n / 0x20_0000 < 128;
  }

  /** Dividing by `d` and by 128 times as much. */
  lemma Septet(n: nat, d: nat)
    requires d == 0x80 || d == 0x4000
    ensures n / d == n / (d * 128) * 128 + n / d % 128
  {
    assert n / d / 128 == n / (d * 128);
  }

  /** The first sync word with a whole header behind it. */
  function FirstSync(d: seq<byte>): (s: Option<nat>)
    ensures s.Some? ==> s.value + 4 <= |d| && IsSync(d[s.value], d[s.value + 1])
  {
    if |d| < 4 then None
    else if IsSync(d[0], d[1]) then Some(0)
    else
      var s := FirstSync(d[1..]);
      if s.Some? then Some(s.value + 1) else None
  }

  function TagOffset(mpeg1: bool, channels: nat): nat {
    if mpeg1 && channels == 2 then 36 else if mpeg1 || channels == 2 then 21 else 13
  }

  /** Length of the metadata frame that `d` starts with. Only the first sync word is
      looked at, and the probe names no bitrate for MPEG 2. */
  function TaggedFrame(d: seq<byte>): (n: Option<nat>)
    ensures n.Some? ==> 96 <= n.value <= |d|
  {
    var info :- Probe(d);
    var mpeg1 := IsMpeg1(d[1]);
    var at := TagOffset(mpeg1, info.channels);
    if at + 4 > |d| || d[at..at + 4] !in {XING, INFO, VBRI} then None
    else
      var kbps :- info.kbps;
      var n := FrameLength(mpeg1, kbps, info.sampleRate, d[2] / 2 % 2);
      FrameAtLeast(d);
      if n > |d| then None else Some(n)
  }

  /** An MPEG 1 frame is at least 96 bytes long. */
  lemma FrameAtLeast(d: seq<byte>)
    ensures var info := Probe(d);
      info.Some? && info.value.kbps.Some? ==>
        FrameLength(IsMpeg1(d[1]), info.value.kbps.value, info.value.sampleRate, d[2] / 2 % 2) >= 96
  {
    if Probe(d).Some? && Probe(d).value.kbps.Some? {
      FrameBounds(true, Probe(d).value.kbps.value, Probe(d).value.sampleRate, d[2] / 2 % 2);
    }
  }

  /** MPEG 1 side information between header and tag (clause 2.4.1.7 of ISO/IEC 11172-3). */
  function SideInfo(mono: bool): nat { if mono then 17 else 32 }

  /** What is taken for a metadata frame is exactly one whole frame, and it carries one
      of the three tags right behind its side information. */
  lemma TaggedFrameIsAFrame(d: seq<byte>)
    requires TaggedFrame(d).Some?
    ensures TaggedFrame(d) == FrameSize(d) && IsMpeg1(d[1])
    ensures var at := 4 + SideInfo(d[3] / 64 == 3); at + 4 <= |d| && d[at..at + 4] in {XING, INFO, VBRI}
  {
  }

  /** And every MPEG 1 frame that does so, and is all there, is taken for one. */
  lemma TaggedFrameIsFound(d: seq<byte>, n: nat)
    requires FrameSize(d) == Some(n) && n <= |d| && IsMpeg1(d[1])
    requires var at := 4 + SideInfo(d[3] / 64 == 3); at + 4 <= |d| && d[at..at + 4] in {XING, INFO, VBRI}
    ensures TaggedFrame(d) == Some(n)
  {
  }

  /** Where the metadata frame ends, counted from the start of `d`. */
  function MetadataEnd(d: seq<byte>): (e: Option<nat>)
    ensures e.Some? ==> 96 <= e.value <= |d|
  {
    var s :- FirstSync(d);
    var n :- TaggedFrame(d[s..]);
    Some(s + n)
  }

  lemma MarksAre()
    ensures ID3 == Ascii("ID3") && XING == Ascii("Xing") && INFO == Ascii("Info") && VBRI == Ascii("VBRI")
  {
  }

  /** There is a tag exactly when the stream starts with a header that says so. */
  lemma TagIff(d: seq<byte>)
    ensures Id3Total(d) > 0 <==> |d| >= 10 && Ascii("ID3") <= d
  {
    MarksAre();
  }

  /** At `s` is the first sync word with a header behind it, and a whole MPEG 1 frame up
      to `e` that carries one of the three marks right behind its side information. */
  ghost predicate MetadataFrameAt(d: seq<byte>, s: nat, e: nat) {
    && s + 4 <= e <= |d| && FrameSize(d[s..]) == Some(e - s) && IsMpeg1(d[s + 1])
    && (forall i :: 0 <= i < s ==> !(d[i] == 255 && d[i + 1] / 32 == 7))
    && var at := s + 4 + (if d[s + 3] / 64 == 3 then 17 else 32);
       at + 4 <= |d| && d[at..at + 4] in {Ascii("Xing"), Ascii("Info"), Ascii("VBRI")}
  }

  lemma {:induction false} FirstSyncIff(d: seq<byte>, s: nat)
    ensures FirstSync(d) == Some(s) <==>
      s + 4 <= |d| && IsSync(d[s], d[s + 1]) && forall i :: 0 <= i < s ==> !IsSync(d[i], d[i + 1])
  {
    if |d| >= 4 && !IsSync(d[0], d[1]) && s > 0 {
      FirstSyncIff(d[1..], s - 1);
      if s + 4 <= |d| && forall i :: 0 <= i < s - 1 ==> !IsSync(d[1..][i], d[1..][i + 1]) {
        forall i | 0 <= i < s ensures !IsSync(d[i], d[i + 1]) {
          if i > 0 { assert !IsSync(d[1..][i - 1], d[1..][i]); }
        }
      }
    }
  }

  /** A metadata frame is found exactly where there is one, at the very front or behind
      bytes without a sync word. */
  lemma MetadataEndIff(d: seq<byte>, s: nat, e: nat)
    ensures (FirstSync(d) == Some(s) && MetadataEnd(d) == Some(e)) <==> MetadataFrameAt(d, s, e)
  {
    hide FrameSize, TaggedFrame, FirstSync, Ascii;
    MarksAre();
    FirstSyncIff(d, s);
    if s + 4 <= |d| {
      var f := d[s..];
      var at := 4 + SideInfo(f[3] / 64 == 3);
      if at + 4 <= |f| { assert f[at..at + 4] == d[s + at..s + at + 4]; }
      if TaggedFrame(f).Some? { TaggedFrameIsAFrame(f); }
      if MetadataFrameAt(d, s, e) { TaggedFrameIsFound(f, e - s); }
    }
  }

  // ── How much of the stream decides ────────────────────────────────────────

  lemma SliceOfPrefix(d: seq<byte>, m: nat, a: nat, b: nat)
    requires a <= b <= m <= |d|
    ensures d[..m][a..b] == d[a..b]
  {
  }

  lemma ProbeOfPrefix(d: seq<byte>, m: nat)
    requires 4 <= m <= |d|
    ensures Probe(d[..m]) == Probe(d)
  {
  }

  /** Looking at fewer bytes finds the same frame or, if it does not end in them, none. */
  lemma TaggedFrameOfPrefix(d: seq<byte>, m: nat)
    requires m <= |d|
    ensures TaggedFrame(d[..m]) ==
      if TaggedFrame(d).Some? && TaggedFrame(d).value <= m then TaggedFrame(d) else None
  {
    var p := d[..m];
    if m >= 4 {
      ProbeOfPrefix(d, m);
      if Probe(d).Some? {
        var at := TagOffset(IsMpeg1(d[1]), Probe(d).value.channels);
        FrameAtLeast(d);
        if at + 4 <= m { SliceOfPrefix(d, m, at, at + 4); }
      }
    }
  }

  lemma {:induction false} FirstSyncOfPrefix(d: seq<byte>, m: nat)
    requires m <= |d|
    ensures FirstSync(d[..m]) == if FirstSync(d).Some? && FirstSync(d).value + 4 <= m then FirstSync(d) else None
  {
    if m >= 4 {
      assert d[..m][1..] == d[1..][..m - 1];
      FirstSyncOfPrefix(d[1..], m - 1);
    }
  }

  lemma MetadataEndOfPrefix(d: seq<byte>, m: nat)
    requires m <= |d|
    ensures MetadataEnd(d[..m]) == if MetadataEnd(d).Some? && MetadataEnd(d).value <= m then MetadataEnd(d) else None
  {
    FirstSyncOfPrefix(d, m);
    if FirstSync(d).Some? {
      var s := FirstSync(d).value;
      if s + 4 <= m {
        assert d[..m][s..] == d[s..][..m - s];
        TaggedFrameOfPrefix(d[s..], m - s);
      }
    }
  }

  // ── Read sizes ────────────────────────────────────────────────────────────

  /** Bytes the reader must have before it decides: the tag, then the probe window. */
  function Target(input: seq<byte>): nat { Id3Total(input) + PROBE_BYTES }

  /** The reader stops gathering at the end of the input, or in the read that
      reaches the target, whose size is at most `chunk`. */
  predicate StopsAt(length: nat, target: nat, chunk: nat, stop: nat) {
    stop <= length && (stop == length < target || target <= stop < target + chunk)
  }

  /** How many leading bytes are not passed on when gathering stopped at `stop`. */
  function Stripped(input: seq<byte>, stop: nat): (k: nat)
    requires stop <= |input|
    ensures k <= |input|
  {
    var tag := Id3Total(input);
    if tag > stop then |input|
    else tag + MetadataEnd(input[tag..stop]).GetOr(0)
  }

  /** What the next read of the source brings: up to `n` bytes but at least one, or an
      error or a cancellation. */
  datatype Turn = Bytes(n: nat) | Interrupted

  /** A source with no turns left fills every buffer. */
  function NextTurn(turns: seq<Turn>, chunk: nat): Turn { if turns == [] then Bytes(chunk) else turns[0] }

  /** How many bytes a read into a buffer of `chunk` bytes brings when `left` are to come. */
  function Taken(n: nat, chunk: nat, left: nat): (k: nat)
    requires chunk > 0
    ensures k <= chunk && k <= left && (left > 0 ==> k > 0)
  {
    var most := if chunk <= left then chunk else left;
    if n == 0 && left > 0 then 1 else if n <= most then n else most
  }

  /** Where reading got to, and whether it ran into the end or was interrupted. */
  datatype Progress = Open | Ended | Broken

  datatype Stream = Stream(pos: nat, turns: seq<Turn>, progress: Progress)

  /** Read on until `target` bytes of the input were read. */
  function Fetch(length: nat, chunk: nat, target: nat, pos: nat, turns: seq<Turn>): (s: Stream)
    requires pos <= length && chunk > 0
    ensures pos <= s.pos <= length && (s.progress.Ended? ==> s.pos == length)
    ensures s.progress.Open? <==> s.pos >= target
    decreases length - pos
  {
    var turn := NextTurn(turns, chunk);
    if pos >= target then Stream(pos, turns, Open)
    else if turn.Interrupted? then Stream(pos, Tail(turns), Broken)
    else if pos == length then Stream(pos, Tail(turns), Ended)
    else Fetch(length, chunk, target, pos + Taken(turn.n, chunk, length - pos), Tail(turns))
  }

  /** Every stop in range is one that some read sizes lead to. */
  lemma {:induction false} EveryStopIsReachable(length: nat, target: nat, chunk: nat, stop: nat, pos: nat)
    returns (turns: seq<Turn>)
    requires StopsAt(length, target, chunk, stop) && pos <= stop && (pos < target || pos == stop) && chunk > 0
    ensures Interrupted !in turns
    ensures Fetch(length, chunk, target, pos, turns) == Stream(stop, [], if stop < target then Ended else Open)
    decreases stop - pos
  {
    if pos == stop {
      turns := [];
    } else if pos + 1 < target {
      var rest := EveryStopIsReachable(length, target, chunk, stop, pos + 1);
      turns := [Bytes(1)] + rest;
    } else {
      turns := [Bytes(stop - pos)];
    }
  }

  /** And unless it is interrupted, reading leads nowhere else. */
  lemma {:induction false} FetchStops(length: nat, target: nat, chunk: nat, pos: nat, turns: seq<Turn>)
    requires pos <= length && chunk > 0 && (pos < target || StopsAt(length, target, chunk, pos))
    ensures var s := Fetch(length, chunk, target, pos, turns);
      !s.progress.Broken? ==> StopsAt(length, target, chunk, s.pos)
    decreases length - pos
  {
    var turn := NextTurn(turns, chunk);
    if pos < target && turn.Bytes? && pos < length {
      FetchStops(length, target, chunk, pos + Taken(turn.n, chunk, length - pos), Tail(turns));
    }
  }

  /** The tag never depends on the read sizes. The metadata frame does exactly when it
      ends behind the probe window and within what one read may bring on top of it. */
  lemma StrippedDependsIff(input: seq<byte>, chunk: nat)
    requires chunk > 0 && Id3Total(input) <= |input|
    ensures var tag, target := Id3Total(input), Target(input);
      var e := MetadataEnd(input[tag..]);
      (exists a, b :: StopsAt(|input|, target, chunk, a) && StopsAt(|input|, target, chunk, b)
        && Stripped(input, a) != Stripped(input, b)) <==>
      e.Some? && 2048 < e.value < 2048 + chunk
  {
    var tag, target := Id3Total(input), Target(input);
    var post := input[tag..];
    var e := MetadataEnd(post);
    forall stop: nat | StopsAt(|input|, target, chunk, stop) && tag <= stop
      ensures Stripped(input, stop) == tag + (if e.Some? && tag + e.value <= stop then e.value else 0)
    {
      StrippedAt(input, stop);
    }
    if e.Some? && 2048 < e.value < 2048 + chunk {
      assert StopsAt(|input|, target, chunk, target) && StopsAt(|input|, target, chunk, tag + e.value);
    }
  }

  lemma {:induction false} SyncBehindZeros(n: nat, d: seq<byte>)
    requires FirstSync(d) == Some(0) && |d| >= 4
    ensures FirstSync(Zeros(n) + d) == Some(n)
  {
    if n == 0 {
      assert Zeros(0) + d == d;
    } else {
      SyncBehindZeros(n - 1, d);
      assert (Zeros(n) + d)[1..] == Zeros(n - 1) + d;
    }
  }

  /** A frame of 417 bytes, stereo at 128 kbit/s and 44.1 kHz, that carries a Xing tag. */
  const XING_FRAME: seq<byte> := [0xFF, 0xFB, 0x90, 0] + Zeros(32) + XING + Zeros(377)

  /** A metadata frame that starts in front of the 2048 bytes' end and ends behind it:
      some read sizes have it stripped, and others do not. */
  lemma StrippedMayDiffer()
    ensures var input := Zeros(2040) + (XING_FRAME + Zeros(100));
      exists a, b :: StopsAt(|input|, Target(input), 4096, a) && StopsAt(|input|, Target(input), 4096, b)
        && Stripped(input, a) != Stripped(input, b)
  {
    hide StopsAt, Stripped, FirstSync, TaggedFrame, FrameSize, Zeros;
    var d := XING_FRAME + Zeros(100);
    var input := Zeros(2040) + d;
    XingFrameIsFound();
    ZerosHaveNoTag(input);
    SyncBehindZeros(2040, d);
    assert input[2040..] == d && input[0..] == input;
    StrippedDependsIff(input, 4096);
  }

  lemma ZerosHaveNoTag(input: seq<byte>)
    requires |input| >= 10 && input[0] == 0
    ensures Id3Total(input) == 0
  {
    assert input[..3][0] == 0;
  }

  lemma XingFrameIsFound()
    ensures |XING_FRAME| == 417
    ensures var d := XING_FRAME + Zeros(100);
      |d| == 517 && FirstSync(d) == Some(0) && TaggedFrame(d) == Some(417)
  {
    var d := XING_FRAME + Zeros(100);
    assert d[0] == 0xFF && d[1] == 0xFB && d[2] == 0x90 && d[3] == 0;
    assert FrameLength(true, 128, 44_100, 0) == 417;
    assert d[36..40] == XING;
    TaggedFrameIsFound(d, 417);
  }

  /** Where the reader may stop, what it strips is behind it. */
  lemma StrippedBehind(input: seq<byte>, chunk: nat, stop: nat)
    requires StopsAt(|input|, Target(input), chunk, stop)
    ensures Stripped(input, stop) <= stop
  {
  }

  lemma StrippedAt(input: seq<byte>, stop: nat)
    requires Id3Total(input) <= stop <= |input|
    ensures var tag := Id3Total(input);
      var e := MetadataEnd(input[tag..]);
      Stripped(input, stop) == tag + (if e.Some? && tag + e.value <= stop then e.value else 0)
  {
    hide MetadataEnd, Id3Total;
    var tag := Id3Total(input);
    assert input[tag..][..stop - tag] == input[tag..stop];
    MetadataEndOfPrefix(input[tag..], stop - tag);
  }

  /** Of a stream that is a tag, a metadata frame and the audio, the audio is left,
      whatever the read sizes: the frame ends within the probe window. */
  lemma OnlyAudioIsLeft(version: seq<byte>, body: seq<byte>, frame: seq<byte>, audio: seq<byte>, chunk: nat, stop: nat)
    requires |version| == 3 && |body| < 0x1000_0000 && MetadataFrameAt(frame, 0, |frame|)
    requires var input := Ascii("ID3") + version + Syncsafe(|body|) + body + frame + audio;
      StopsAt(|input|, Target(input), chunk, stop)
    ensures var input := Ascii("ID3") + version + Syncsafe(|body|) + body + frame + audio;
      input[Stripped(input, stop)..] == audio
  {
    hide FrameSize, TaggedFrame, Id3Total, Ascii, FirstSync;
    var tag := Ascii("ID3") + version + Syncsafe(|body|) + body;
    var input := tag + frame + audio;
    MarksAre();
    TagSizeRoundTrip(version, |body|, body + frame + audio);
    assert input == ID3 + version + Syncsafe(|body|) + (body + frame + audio);
    assert input[|tag|..] == frame + audio;
    FrameInFront(frame, audio);
    StrippedAt(input, stop);
    assert input[|tag + frame|..] == audio;
  }

  lemma FrameInFront(frame: seq<byte>, audio: seq<byte>)
    requires MetadataFrameAt(frame, 0, |frame|)
    ensures MetadataEnd(frame + audio) == Some(|frame|) && |frame| <= 1441
  {
    hide TaggedFrame, Ascii, FirstSync;
    MetadataEndIff(frame, 0, |frame|);
    var d := frame + audio;
    assert d[..|frame|] == frame && frame[0..] == frame && d[0..] == d;
    MetadataEndOfPrefix(d, |frame|);
  }
}
