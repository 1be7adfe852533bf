/** Handing a decoder whole units only: scanning staged bytes for complete MP3
    frames or Ogg pages. First for any way of recognising a unit. */
module StagingSpec {
  import opened Bytes
  import opened Wrappers
  import opened Codec

  /** What the bytes from some position on start with: a complete unit, a byte to
      step over, or something only more bytes can settle. */
  datatype Verdict = Unit(size: nat) | Skip | Wait

  type Classifier = seq<byte> -> Verdict

  predicate SoundAt(v: Classifier, d: seq<byte>) {
    && (v(d).Unit? ==> 0 < v(d).size <= |d|)
    && (v(d).Skip? ==> d != [])
  }

  ghost predicate Sound(v: Classifier) { forall d :: SoundAt(v, d) }

  predicate StableAt(v: Classifier, d: seq<byte>, e: seq<byte>) { !v(d).Wait? ==> v(d + e) == v(d) }

  /** More bytes never change a verdict other than Wait. */
  ghost predicate Stable(v: Classifier) { forall d, e :: StableAt(v, d, e) }

  /** How many bytes of `d` end with its last complete unit; 0 if there is none. */
  function Staged(v: Classifier, d: seq<byte>): (r: nat)
    ensures r <= |d|
    decreases |d|
  {
    match v(d)
    case Wait => 0
    case Skip => if d == [] then 0 else var rest := Staged(v, d[1..]); if rest == 0 then 0 else 1 + rest
    case Unit(n) => if 0 < n <= |d| then n + Staged(v, d[n..]) else 0
  }

  lemma StagedStep(v: Classifier, d: seq<byte>, e: seq<byte>)
    requires Sound(v) && Stable(v) && !v(d).Wait?
    ensures var n := if v(d).Unit? then v(d).size else 1;
      && 0 < n <= |d|
      && var rest := Staged(v, d[n..] + e);
        Staged(v, d + e) == if v(d).Skip? && rest == 0 then 0 else n + rest
  {
    var n := if v(d).Unit? then v(d).size else 1;
    assert SoundAt(v, d) && StableAt(v, d, e);
    assert (d + e)[n..] == d[n..] + e;
  }

  /** Rescanning only what is still staged, once more bytes arrived, finds exactly
      what scanning everything from the start would find. */
  lemma {:induction false} StagedResumes(v: Classifier, d: seq<byte>, e: seq<byte>)
    requires Sound(v) && Stable(v)
    ensures Staged(v, d + e) == Staged(v, d) + Staged(v, d[Staged(v, d)..] + e)
    decreases |d|
  {
    var s := Staged(v, d);
    if s == 0 {
      assert d[0..] == d;
    } else {
      assert SoundAt(v, d);
      var n := if v(d).Unit? then v(d).size else 1;
      StagedStep(v, d, e);
      StagedResumes(v, d[n..], e);
      assert d[n..][s - n..] == d[s..];
    }
  }

  // ── The classifiers ───────────────────────────────────────────────────────

  function Mp3Verdict(d: seq<byte>): Verdict {
    if |d| < 4 then Wait
    else
      match FrameSize(d)
      case Some(n) => if n <= |d| then Unit(n) else Wait
      case None => Skip
  }

  /** As the code has it: a page whose lacing table is cut off is stepped over. */
  function OggVerdict(d: seq<byte>): Verdict {
    if |d| < 27 then Wait
    else
      match PageSize(d)
      case Some(n) => if n <= |d| then Unit(n) else Wait
      case None => Skip
  }

  /** What alignment asks for: wait for the rest of the lacing table. */
  function PatientOggVerdict(d: seq<byte>): Verdict {
    if |d| >= 27 && HasMagic(d) && PageSize(d).None? then Wait else OggVerdict(d)
  }

  lemma Mp3Stable()
    ensures Sound(Mp3Verdict) && Stable(Mp3Verdict)
  {
    forall d: seq<byte> ensures SoundAt(Mp3Verdict, d) {
    }
    forall d: seq<byte>, e: seq<byte> ensures StableAt(Mp3Verdict, d, e) {
      if |d| >= 4 { assert (d + e)[..4] == d[..4]; }
    }
  }

  lemma PatientOggStable()
    ensures Sound(PatientOggVerdict) && Stable(PatientOggVerdict)
  {
    forall d: seq<byte> ensures SoundAt(PatientOggVerdict, d) {
    }
    forall d: seq<byte>, e: seq<byte> ensures StableAt(PatientOggVerdict, d, e) {
      if |d| >= 27 {
        assert (d + e)[..4] == d[..4];
        var n: nat := d[26];
        if |d| >= 27 + n { assert (d + e)[27..27 + n] == d[27..27 + n]; }
      }
    }
  }

  // ── Streams of whole units ────────────────────────────────────────────────

  function Flat(fs: seq<seq<byte>>): seq<byte> { if fs == [] then [] else fs[0] + Flat(fs[1..]) }

  lemma {:induction false} FlatSnoc(fs: seq<seq<byte>>, f: seq<byte>)
    ensures Flat(fs + [f]) == Flat(fs) + f
  {
    if fs == [] {
      assert Flat([f]) == f + Flat([]);
    } else {
      assert (fs + [f])[1..] == fs[1..] + [f];
      FlatSnoc(fs[1..], f);
    }
  }

  lemma {:induction false} FlatAdd(a: seq<seq<byte>>, b: seq<seq<byte>>)
    ensures Flat(a + b) == Flat(a) + Flat(b)
  {
    if a == [] {
      assert a + b == b;
    } else {
      assert (a + b)[1..] == a[1..] + b;
      FlatAdd(a[1..], b);
    }
  }

  /** The scan steps over all of `junk` when `rest` follows it. */
  ghost predicate SteppedOver(v: Classifier, junk: seq<byte>, rest: seq<byte>) {
    forall i :: 0 <= i < |junk| ==> v(junk[i..] + rest) == Skip
  }

  lemma {:induction false} StagedUnits(v: Classifier, fs: seq<seq<byte>>, tail: seq<byte>)
    requires Sound(v) && Stable(v) && Staged(v, tail) == 0
    requires forall f :: f in fs ==> v(f) == Unit(|f|)
    ensures Staged(v, Flat(fs) + tail) == |Flat(fs)|
  {
    if fs == [] {
      assert Flat(fs) + tail == tail;
    } else {
      var f, more := fs[0], Flat(fs[1..]) + tail;
      StagedUnits(v, fs[1..], tail);
      assert Flat(fs) + tail == f + more;
      assert SoundAt(v, f) && StableAt(v, f, more);
      assert (f + more)[|f|..] == more;
    }
  }

  /** Junk the scan steps over, then whole units, then less than a unit: once a unit
      is complete, exactly the junk and the complete units are handed on. */
  lemma {:induction false} StagedStream(v: Classifier, junk: seq<byte>, fs: seq<seq<byte>>, tail: seq<byte>)
    requires Sound(v) && Stable(v) && Staged(v, tail) == 0
    requires forall f :: f in fs ==> v(f) == Unit(|f|)
    requires SteppedOver(v, junk, Flat(fs) + tail)
    ensures Staged(v, junk + (Flat(fs) + tail)) == if fs == [] then 0 else |junk| + |Flat(fs)|
    decreases |junk|
  {
    var rest := Flat(fs) + tail;
    if junk == [] {
      assert junk + rest == rest;
      StagedUnits(v, fs, tail);
    } else {
      forall i | 0 <= i < |junk| - 1 ensures v(junk[1..][i..] + rest) == Skip {
        assert junk[1..][i..] == junk[i + 1..];
      }
      StagedStream(v, junk[1..], fs, tail);
      assert v(junk[0..] + rest) == Skip && junk[0..] == junk;
      assert (junk + rest)[1..] == junk[1..] + rest;
      if fs != [] {
        assert SoundAt(v, fs[0]) && v(fs[0]).Unit?;
        assert |Flat(fs)| > 0;
      }
    }
  }

  /** For MP3: junk without a frame header, whole frames, and the start of another. */
  lemma Mp3StagesFrames(junk: seq<byte>, fs: seq<seq<byte>>, tail: seq<byte>)
    requires forall f :: f in fs ==> FrameSize(f) == Some(|f|)
    requires |tail| < 4 || (FrameSize(tail).Some? && FrameSize(tail).value > |tail|)
    requires SteppedOver(Mp3Verdict, junk, Flat(fs) + tail)
    ensures Staged(Mp3Verdict, junk + (Flat(fs) + tail)) == if fs == [] then 0 else |junk| + |Flat(fs)|
  {
    Mp3Stable();
    forall f | f in fs ensures Mp3Verdict(f) == Unit(|f|) {
      assert FrameSize(f) == Some(|f|);
    }
    StagedStream(Mp3Verdict, junk, fs, tail);
  }

  // ── Ogg: when the scanner's shortcut is harmless ──────────────────────────

  predicate HastyAt(v: Classifier, p: Classifier, d: seq<byte>) { v(d) == p(d) || (p(d).Wait? && v(d).Skip?) }

  /** `v` decides as `p` does, except that it may step over what `p` waits for. */
  ghost predicate Hasty(v: Classifier, p: Classifier) { forall d :: HastyAt(v, p, d) }

  /** Where the patient scan stops at something the other steps over. */
  function CutOff(v: Classifier, p: Classifier, d: seq<byte>): (at: Option<nat>)
    ensures at.Some? ==> at.value < |d|
    decreases |d|
  {
    if d == [] then None
    else
      match p(d)
      case Skip => var at := CutOff(v, p, d[1..]); if at.Some? then Some(at.value + 1) else None
      case Unit(n) =>
        if 0 < n <= |d| then var at := CutOff(v, p, d[n..]); if at.Some? then Some(at.value + n) else None
        else None
      case Wait => if v(d).Skip? then Some(0) else None
  }

  lemma HastyHere(v: Classifier, p: Classifier, d: seq<byte>)
    requires Sound(v) && Sound(p) && Hasty(v, p)
    ensures SoundAt(v, d) && SoundAt(p, d) && HastyAt(v, p, d)
  {
  }

  /** What a scan finds at a position, from what it finds behind the step it takes. */
  function Behind(found: Verdict, n: nat, rest: nat): nat { if found.Skip? && rest == 0 then 0 else n + rest }

  /** Where the patient scan goes on, the hasty one does the same. */
  lemma {:induction false} SameStep(v: Classifier, p: Classifier, d: seq<byte>)
    requires SoundAt(v, d) && SoundAt(p, d) && HastyAt(v, p, d) && !p(d).Wait?
    ensures var n := if p(d).Unit? then p(d).size else 1;
      && 0 < n <= |d|
      && Staged(v, d) == Behind(p(d), n, Staged(v, d[n..]))
      && Staged(p, d) == Behind(p(d), n, Staged(p, d[n..]))
      && var at := CutOff(v, p, d[n..]);
        CutOff(v, p, d) == if at.Some? then Some(at.value + n) else None
  {
  }

  lemma {:induction false} WaitStep(v: Classifier, p: Classifier, d: seq<byte>)
    requires SoundAt(v, d) && HastyAt(v, p, d) && p(d).Wait?
    ensures Staged(v, d) == Staged(p, d) <==>
      CutOff(v, p, d).None? || Staged(v, d[CutOff(v, p, d).value + 1..]) == 0
  {
  }

  /** The hasty scan agrees with the patient one exactly when it finds no complete
      unit behind the point where the patient one waits. */
  lemma {:induction false} StagesIff(v: Classifier, p: Classifier, d: seq<byte>)
    requires Sound(v) && Sound(p) && Hasty(v, p)
    ensures Staged(v, d) == Staged(p, d) <==>
      CutOff(v, p, d).None? || Staged(v, d[CutOff(v, p, d).value + 1..]) == 0
    decreases |d|
  {
    hide Sound, Hasty, Staged, CutOff;
    HastyHere(v, p, d);
    if p(d).Wait? {
      WaitStep(v, p, d);
    } else {
      SameStep(v, p, d);
      var n := if p(d).Unit? then p(d).size else 1;
      StagesIff(v, p, d[n..]);
      var at := CutOff(v, p, d[n..]);
      if at.Some? { assert d[n..][at.value + 1..] == d[at.value + n + 1..]; }
    }
  }

  lemma OggHasty()
    ensures Sound(OggVerdict) && Sound(PatientOggVerdict) && Hasty(OggVerdict, PatientOggVerdict)
  {
    forall d: seq<byte>
      ensures SoundAt(OggVerdict, d) && SoundAt(PatientOggVerdict, d) && HastyAt(OggVerdict, PatientOggVerdict, d)
    {
    }
  }

  /** `d` has a complete unit at `i`, and everything in front of it is stepped over. */
  ghost predicate FirstUnitAt(v: Classifier, d: seq<byte>, i: nat) {
    i <= |d| && v(d[i..]).Unit? && forall j :: 0 <= j < i ==> v(d[j..]).Skip?
  }

  ghost predicate ComesToUnit(v: Classifier, d: seq<byte>) { exists i: nat :: FirstUnitAt(v, d, i) }

  /** A scan hands something on exactly when it comes to a complete unit. */
  lemma {:induction false} StagedIff(v: Classifier, d: seq<byte>)
    requires Sound(v)
    ensures Staged(v, d) > 0 <==> ComesToUnit(v, d)
    decreases |d|
  {
    assert d[0..] == d && SoundAt(v, d);
    if v(d).Skip? {
      StagedIff(v, d[1..]);
      if ComesToUnit(v, d[1..]) {
        var i: nat :| FirstUnitAt(v, d[1..], i);
        UnitOneLater(v, d, i);
      }
      if ComesToUnit(v, d) {
        var i: nat :| FirstUnitAt(v, d, i);
        assert i != 0;
        UnitOneLater(v, d, i - 1);
      }
    } else if v(d).Unit? {
      assert FirstUnitAt(v, d, 0);
    }
  }

  lemma UnitOneLater(v: Classifier, d: seq<byte>, i: nat)
    requires d != [] && v(d).Skip?
    ensures FirstUnitAt(v, d[1..], i) <==> FirstUnitAt(v, d, i + 1)
  {
    assert d[0..] == d && (i + 1 <= |d| ==> d[1..][i..] == d[i + 1..]);
    forall j | 0 <= j < i && i + 1 <= |d| ensures d[1..][j..] == d[j + 1..] {
    }
    if FirstUnitAt(v, d[1..], i) {
      forall j | 0 <= j < i + 1 ensures v(d[j..]).Skip? {
        if j > 0 { assert v(d[1..][j - 1..]).Skip?; }
      }
    }
  }

  /** Ogg staging is aligned exactly when no complete page is come to behind the magic
      of a page whose lacing table the end of the staged bytes cuts off. */
  lemma OggStagesIff(d: seq<byte>)
    ensures var at := CutOff(OggVerdict, PatientOggVerdict, d);
      Staged(OggVerdict, d) == Staged(PatientOggVerdict, d) <==>
        at.None? || !ComesToUnit(OggVerdict, d[at.value + 1..])
  {
    hide Sound, Hasty, Staged, CutOff, ComesToUnit, OggVerdict, PatientOggVerdict;
    OggHasty();
    StagesIff(OggVerdict, PatientOggVerdict, d);
    var at := CutOff(OggVerdict, PatientOggVerdict, d);
    if at.Some? { StagedIff(OggVerdict, d[at.value + 1..]); }
  }

  /** A page header that announces 255 lacing values, and instead of them a whole page
      that has none: the scan hands on all of it, cut-off header included. */
  lemma OggStagesCutOffPage()
    ensures var d := OGG_MAGIC + Zeros(22) + [255] + (OGG_MAGIC + Zeros(23));
      Staged(OggVerdict, d) == |d| && Staged(PatientOggVerdict, d) == 0
  {
    var head, page := OGG_MAGIC + Zeros(22) + [255], OGG_MAGIC + Zeros(23);
    var d := head + page;
    assert page[..4] == OGG_MAGIC && page[27..27] == [];
    assert d[..4] == OGG_MAGIC && d[0..] == d && d[27..] == page && d[54..] == [];
    SkippedHead(head, page, 0);
    assert Staged(OggVerdict, page) == 27 by { assert page[27..] == []; }
  }

  /** No position inside the header starts a page. */
  lemma {:induction false} SkippedHead(head: seq<byte>, page: seq<byte>, i: nat)
    requires head == OGG_MAGIC + Zeros(22) + [255] && page == OGG_MAGIC + Zeros(23) && i <= 27
    ensures Staged(OggVerdict, page) == 27 ==> Staged(OggVerdict, (head + page)[i..]) == 54 - i
    decreases 27 - i
  {
    var d := (head + page)[i..];
    if i == 27 {
      assert d == page;
    } else {
      SkippedHead(head, page, i + 1);
      assert d[1..] == (head + page)[i + 1..];
      assert i == 0 ==> d[26] == 255;
      assert d[0] == head[i] && d[..4][0] == d[0];
    }
  }

  ghost predicate NoMagicIn(d: seq<byte>) { forall i :: 0 <= i < |d| ==> !HasMagic(d[i..]) }

  /** In particular when there is no page magic after the cut-off page's own. */
  lemma {:induction false} NoMagicNoPage(d: seq<byte>)
    requires NoMagicIn(d)
    ensures Staged(OggVerdict, d) == 0
    decreases |d|
  {
    if d != [] {
      assert d[0..] == d;
      forall i | 0 <= i < |d| - 1 ensures !HasMagic(d[1..][i..]) {
        assert d[1..][i..] == d[i + 1..];
      }
      NoMagicNoPage(d[1..]);
    }
  }
}

/** The decoder's input side: the buffer before initialisation, the staging area
    after it, and the pipe the format reader draws from. */
module Staging {
  import opened Bytes
  import opened Wrappers
  import opened Codec
  import opened StagingSpec

  const INIT_THRESHOLD_MP3 := 8_192
  const INIT_THRESHOLD_VORBIS := 65_536

  datatype Read = Data(bytes: seq<byte>) | WouldBlock | Eof

  /** What a scan that is at `pos`, having seen a unit end at `last`, comes to. */
  function Found(rest: nat, pos: nat, last: nat): nat { if rest == 0 then last else pos + rest }

  /** One turn of the scanning loop. */
  lemma ScanTurn(v: Classifier, d: seq<byte>, pos: nat, last: nat)
    requires Sound(v) && last <= pos <= |d|
    ensures var found := Found(Staged(v, d[pos..]), pos, last);
      match v(d[pos..])
      case Wait => found == last
      case Skip => pos < |d| && found == Found(Staged(v, d[pos + 1..]), pos + 1, last)
      case Unit(n) => 0 < n <= |d| - pos && found == Found(Staged(v, d[pos + n..]), pos + n, pos + n)
  {
    var r := d[pos..];
    assert SoundAt(v, r);
    match v(r)
    case Wait =>
    case Skip => assert r[1..] == d[pos + 1..];
    case Unit(n) => assert r[n..] == d[pos + n..];
  }

  /** The scanning loop both stagers run: how many bytes to hand on. */
  method Scan(v: Classifier, d: seq<byte>) returns (last: nat)
    requires Sound(v)
    ensures last == Staged(v, d)
  {
    var pos := 0;
    last := 0;
    assert d[0..] == d;
    while true
      invariant last <= pos <= |d|
      invariant Staged(v, d) == Found(Staged(v, d[pos..]), pos, last)
      decreases |d| - pos
    {
      ScanTurn(v, d, pos, last);
      match v(d[pos..])
      case Wait => break;
      case Skip => pos := pos + 1;
      case Unit(n) =>
        pos := pos + n;
        last := pos;
    }
  }

  /** A reader that draws with so many buffers reads `n` bytes to the last. */
  ghost predicate ReadsAll(rooms: seq<nat>, n: nat) { n <= |rooms| && 0 !in rooms }

  class PipeBuf {
    var data: seq<byte>
    var eof: bool
    /** Everything the reader has drawn. */
    ghost var drawn: seq<byte>

    /** Everything sent down the pipe. */
    ghost function Sent(): seq<byte> reads this { drawn + data }

    constructor ()
      ensures data == [] && !eof && drawn == []
    {
      data, eof, drawn := [], false, [];
    }

    /** `PipeSource::read` into a buffer of `room` bytes. */
    method ReadInto(room: nat) returns (r: Read)
      modifies this
      ensures Sent() == old(Sent()) && eof == old(eof)
      ensures r.Data? ==> r.bytes != [] && |r.bytes| <= room && drawn == old(drawn) + r.bytes
      ensures r.Data? ==> |r.bytes| == room || data == []
      ensures !r.Data? ==> data == old(data) && drawn == old(drawn) && (r.Eof? <==> eof)
      ensures r.Data? <==> room > 0 && old(data) != []
    {
      var n := if |data| < room then |data| else room;
      if n == 0 { return if eof then Eof else WouldBlock; }
      r := Data(data[..n]);
      drawn := drawn + data[..n];
      data := data[n..];
    }

    method Send(bytes: seq<byte>)
      modifies this
      ensures Sent() == old(Sent()) + bytes && data == old(data) + bytes && eof == old(eof)
    {
      data := data + bytes;
    }

    method Clear()
      modifies this
      ensures Sent() == data == [] && eof == old(eof)
    {
      data, drawn := [], [];
    }

    method Close()
      modifies this
      ensures Sent() == old(Sent()) && data == old(data) && eof
    {
      eof := true;
    }

    /** A format reader drawing with buffers of these sizes until it runs dry. */
    method Drain(rooms: seq<nat>)
      modifies this
      ensures Sent() == old(Sent()) && eof == old(eof)
      ensures ReadsAll(rooms, |old(data)|) ==> data == []
    {
      for i := 0 to |rooms|
        invariant Sent() == old(Sent()) && eof == old(eof)
        invariant ReadsAll(rooms, |old(data)|) ==> data == [] || |data| + i <= |old(data)|
      {
        var r := ReadInto(rooms[i]);
        if !r.Data? { return; }
      }
    }
  }

  class StreamDecoder {
    /** How units are recognised, and how a patient scan would recognise them. */
    const scanner: Classifier
    ghost const patient: Classifier
    const threshold: nat
    const pipe: PipeBuf
    var pending: seq<byte>
    var staging: seq<byte>
    /** Whether initialisation has succeeded. */
    var ready: bool
    /** Bytes thrown away by failed initialisations. */
    ghost var lost: seq<byte>
    /** Bytes that were in the pipe when initialisation succeeded. */
    ghost var initial: seq<byte>
    /** Everything pushed since. */
    ghost var input: seq<byte>
    /** No scan so far found a unit inside one it had stepped into. */
    ghost var aligned: bool

    ghost predicate Scanners() { Sound(scanner) && Sound(patient) && Stable(patient) }

    ghost predicate Collecting()
      reads this, pipe
    {
      !ready && staging == [] && input == [] && initial == [] && pipe.Sent() == [] && |pending| < threshold
    }

    /** Nothing is lost or reordered: what was sent and what is still staged is the
        input. What was sent ends where a patient scan of all input so far ends. */
    ghost predicate Streaming()
      reads this, pipe
    {
      && ready && pending == [] && |pipe.Sent()| >= |initial|
      && pipe.Sent() + staging == initial + input
      && (scanner == patient ==> aligned)
      && (aligned && !pipe.eof ==> pipe.Sent() == initial + input[..Staged(patient, input)])
    }

    ghost predicate Valid()
      reads this, pipe
    {
      Scanners() && (Collecting() || Streaming())
    }

    /** Every byte ever pushed, in order, wherever it is now. */
    ghost function Everything(): seq<byte>
      reads this, pipe
    {
      lost + (pipe.Sent() + (if ready then staging else pending))
    }

    constructor (v: Classifier, ghost p: Classifier, t: nat)
      requires Sound(v) && Sound(p) && Stable(p) && t > 0
      ensures Valid() && !ready && Everything() == [] && fresh(pipe)
      ensures lost == pending == [] && !pipe.eof
      ensures scanner == v && patient == p && threshold == t
    {
      scanner, patient, threshold := v, p, t;
      pipe := new PipeBuf();
      pending, staging, ready := [], [], false;
      lost, initial, input, aligned := [], [], [], true;
    }

    /** `stage_complete_frames_to_pipe` */
    method Stage()
      requires Sound(scanner)
      modifies this`staging, pipe
      ensures var n := Staged(scanner, old(staging));
        pipe.Sent() == old(pipe.Sent()) + old(staging)[..n] && staging == old(staging)[n..]
      ensures pipe.eof == old(pipe.eof)
    {
      var last := Scan(scanner, staging);
      if last > 0 {
        pipe.Send(staging[..last]);
        staging := staging[last..];
      }
    }

    method TryInit(initOk: bool, rooms: seq<nat>)
      requires !ready
      modifies this`lost, this`ready, this`initial, this`aligned, pipe
      ensures ready == initOk && pipe.eof == old(pipe.eof)
      ensures ReadsAll(rooms, |old(pipe.Sent())|) ==> pipe.data == []
      ensures ready ==> lost == old(lost) && pipe.Sent() == old(pipe.Sent()) && initial == pipe.Sent() && aligned
      ensures !ready ==> lost == old(lost) + old(pipe.Sent()) && pipe.Sent() == [] && initial == old(initial)
    {
      pipe.Drain(rooms);
      if !initOk {
        lost := lost + pipe.Sent();
        pipe.Clear();
      } else {
        ready, initial, aligned := true, pipe.Sent(), true;
      }
    }

    method PushStaged(data: seq<byte>, rooms: seq<nat>)
      requires Scanners() && Streaming()
      modifies this`staging, this`input, this`aligned, pipe
      ensures Streaming() && input == old(input) + data && pipe.eof == old(pipe.eof)
      ensures pipe.Sent() + staging == old(pipe.Sent() + staging) + data
      ensures ReadsAll(rooms, |pipe.Sent()|) ==> pipe.data == []
      ensures aligned <==>
        old(aligned) && Staged(scanner, old(staging) + data) == Staged(patient, old(staging) + data)
      ensures old(aligned) && !pipe.eof ==>
        (aligned <==> pipe.Sent() == initial + input[..Staged(patient, input)])
    {
      ghost var all := staging + data;
      if aligned && !pipe.eof {
        StagesAll(patient, pipe.Sent(), staging, initial, input, data);
        assert |pipe.Sent()| + Staged(patient, all) == |initial| + Staged(patient, input + data);
      }
      Conserves(pipe.Sent(), staging, initial, input, data, Staged(scanner, all));
      aligned := aligned && Staged(scanner, all) == Staged(patient, all);
      staging := staging + data;
      input := input + data;
      Stage();
      pipe.Drain(rooms);
    }

    method PushPending(data: seq<byte>, initOk: bool, rooms: seq<nat>)
      requires Scanners() && Collecting()
      modifies this, pipe
      ensures Collecting() || Streaming()
      ensures Everything() == old(lost) + (old(pending) + data) && pipe.eof == old(pipe.eof)
      ensures |old(pending) + data| < threshold ==>
        !ready && pending == old(pending) + data && lost == old(lost)
      ensures |old(pending) + data| >= threshold ==> pending == [] && (ready <==> initOk)
      ensures |old(pending) + data| >= threshold && initOk ==>
        lost == old(lost) && pipe.Sent() == initial == old(pending) + data && input == []
      ensures |old(pending) + data| >= threshold && !initOk ==>
        lost == old(lost) + (old(pending) + data) && pipe.Sent() == []
      ensures ready && ReadsAll(rooms, |pipe.Sent()|) ==> pipe.data == []
    {
      pending := pending + data;
      if |pending| < threshold { return; }
      pipe.Send(pending);
      pending := [];
      TryInit(initOk, rooms);
      assert initial + [] == initial && pipe.Sent() + [] == pipe.Sent();
    }

    /** `StreamDecoder::push`; `initOk` is what trying to initialise gives, and `rooms`
        the buffer sizes the format reader then reads with. */
    method Push(data: seq<byte>, initOk: bool, rooms: seq<nat>)
      requires Valid()
      modifies this, pipe
      ensures Valid() && Everything() == old(Everything()) + data && pipe.eof == old(pipe.eof)
      ensures old(ready) ==>
        ready && initial == old(initial) && input == old(input) + data && lost == old(lost)
      ensures !old(ready) && (data == [] || |old(pending) + data| < threshold) ==>
        !ready && pending == old(pending) + data && lost == old(lost)
      ensures !old(ready) && data != [] && |old(pending) + data| >= threshold ==>
        pending == [] && (ready <==> initOk)
      ensures !old(ready) && data != [] && |old(pending) + data| >= threshold && initOk ==>
        lost == old(lost) && pipe.Sent() == initial == old(pending) + data && input == []
      ensures !old(ready) && data != [] && |old(pending) + data| >= threshold && !initOk ==>
        lost == old(lost) + (old(pending) + data) && pipe.Sent() == []
      ensures ready && data != [] && ReadsAll(rooms, |pipe.Sent()|) ==> pipe.data == []
    {
      if data == [] {
        assert pending + data == pending && input + data == input;
        return;
      }
      if ready {
        ghost var before := pipe.Sent() + staging;
        PushStaged(data, rooms);
        assert lost + (before + data) == (lost + before) + data;
      } else {
        ghost var before := pending;
        assert [] + before == before && lost + (before + data) == (lost + before) + data;
        PushPending(data, initOk, rooms);
      }
    }

    /** `flush_eof`: whatever is pending or staged is sent, complete or not. */
    method FlushEof(initOk: bool, rooms: seq<nat>)
      requires Valid()
      modifies this, pipe
      ensures pipe.eof && staging == [] && pending == [] && lost == old(lost)
      ensures lost + pipe.Sent() == old(Everything())
      ensures ready <==> old(ready) || (old(pending) != [] && initOk)
      ensures ready && ReadsAll(rooms, |pipe.Sent()|) ==> pipe.data == []
    {
      if !ready && pending != [] {
        pipe.Send(pending);
        pending := [];
        pipe.Drain(rooms);
        ready := initOk;
      }
      if staging != [] {
        pipe.Send(staging);
        staging := [];
      }
      pipe.Close();
      if ready { pipe.Drain(rooms); }
    }
  }

  /** `StreamDecoder::new` */
  method NewMp3Decoder() returns (decoder: StreamDecoder)
    ensures fresh(decoder) && fresh(decoder.pipe) && decoder.Valid() && !decoder.ready
    ensures decoder.scanner == decoder.patient == Mp3Verdict && decoder.threshold == 8192
    ensures decoder.lost == decoder.pending == []
  {
    Mp3Stable();
    decoder := new StreamDecoder(Mp3Verdict, Mp3Verdict, INIT_THRESHOLD_MP3);
  }

  method NewOggDecoder() returns (decoder: StreamDecoder)
    ensures fresh(decoder) && fresh(decoder.pipe) && decoder.Valid() && !decoder.ready
    ensures decoder.scanner == OggVerdict && decoder.patient == PatientOggVerdict
    ensures decoder.threshold == 65536 && decoder.lost == decoder.pending == []
  {
    OggHasty();
    PatientOggStable();
    decoder := new StreamDecoder(OggVerdict, PatientOggVerdict, INIT_THRESHOLD_VORBIS);
  }

  /** After initialisation, what was sent and what is still staged depend only on the
      bytes pushed since, not on how they were split, for every stable way of
      recognising units, as the MP3 decoder's is. */
  method PushPieces(decoder: StreamDecoder, pieces: seq<seq<byte>>, rooms: seq<nat>)
    requires decoder.Valid() && decoder.ready && decoder.scanner == decoder.patient && !decoder.pipe.eof
    modifies decoder, decoder.pipe
    ensures decoder.Valid() && decoder.initial == old(decoder.initial)
    ensures var all := old(decoder.input) + Flat(pieces);
      var n := Staged(decoder.scanner, all);
      decoder.pipe.Sent() == decoder.initial + all[..n] && decoder.staging == all[n..]
  {
    for i := 0 to |pieces|
      invariant decoder.Valid() && decoder.ready && !decoder.pipe.eof
      invariant decoder.initial == old(decoder.initial)
      invariant decoder.input == old(decoder.input) + Flat(pieces[..i])
    {
      assert pieces[..i + 1] == pieces[..i] + [pieces[i]];
      FlatAppend(old(decoder.input), pieces[..i], pieces[i]);
      decoder.Push(pieces[i], true, rooms);
    }
    assert pieces[..|pieces|] == pieces;
    SentIsPrefix(decoder);
  }

  /** The pieces between `from` and `end`, joined. */
  function Joined(pieces: seq<seq<byte>>, from: nat, end: nat): seq<byte>
    requires from <= end <= |pieces|
  {
    Flat(pieces[from..end])
  }

  lemma JoinedNext(pieces: seq<seq<byte>>, from: nat, end: nat)
    requires from <= end < |pieces|
    ensures Joined(pieces, from, end + 1) == Joined(pieces, from, end) + pieces[end]
  {
    assert pieces[from..end + 1] == pieces[from..end] + [pieces[end]];
    FlatSnoc(pieces[from..end], pieces[end]);
  }

  lemma {:induction false} JoinedSplit(pieces: seq<seq<byte>>, from: nat, mid: nat, end: nat)
    requires from <= mid <= end <= |pieces|
    ensures Joined(pieces, from, end) == Joined(pieces, from, mid) + Joined(pieces, mid, end)
    decreases end
  {
    hide Joined;
    if mid == end {
      NothingJoined(pieces, mid);
    } else {
      JoinedSplit(pieces, from, mid, end - 1);
      JoinedNext(pieces, from, end - 1);
      JoinedNext(pieces, mid, end - 1);
    }
  }

  lemma NothingJoined(pieces: seq<seq<byte>>, i: nat)
    requires i <= |pieces|
    ensures Joined(pieces, i, i) == []
  {
    assert pieces[i..i] == [];
  }

  /** Where a fresh decoder stands after the first `i` pieces: those in front of `start`
      are discarded, and those in front of `begun` went into the pipe to initialise. */
  ghost predicate Opening(
      d: StreamDecoder, pieces: seq<seq<byte>>, inits: seq<bool>, start: nat, begun: nat, i: nat)
    requires start <= begun <= i <= |pieces| == |inits|
    reads d
  {
    && d.lost == Joined(pieces, 0, start) && (start > 0 ==> !inits[start - 1])
    && if d.ready then
      && start < begun && inits[begun - 1]
      && |Joined(pieces, start, begun - 1)| < d.threshold <= |Joined(pieces, start, begun)|
      && d.initial == Joined(pieces, start, begun) && d.input == Joined(pieces, begun, i)
    else
      d.pending == Joined(pieces, start, i)
  }

  method PushNext(d: StreamDecoder, pieces: seq<seq<byte>>, inits: seq<bool>, rooms: seq<nat>, i: nat,
      ghost start0: nat, ghost begun0: nat)
    returns (ghost start: nat, ghost begun: nat)
    requires start0 <= begun0 <= i < |pieces| == |inits|
    requires d.Valid() && !d.pipe.eof && Opening(d, pieces, inits, start0, begun0, i)
    modifies d, d.pipe
    ensures d.Valid() && !d.pipe.eof
    ensures start <= begun <= i + 1 && Opening(d, pieces, inits, start, begun, i + 1)
  {
    assert !d.ready ==> |d.pending| < d.threshold;
    hide Joined, StreamDecoder.Valid, StreamDecoder.Everything, PipeBuf.Sent;
    ghost var was, pending := d.ready, d.pending;
    JoinedNext(pieces, start0, i);
    JoinedNext(pieces, begun0, i);
    JoinedSplit(pieces, 0, start0, i + 1);
    NothingJoined(pieces, i + 1);
    d.Push(pieces[i], inits[i], rooms);
    start, begun := start0, begun0;
    if !was {
      if d.ready {
        begun := i + 1;
      } else if pieces[i] != [] && |pending + pieces[i]| >= d.threshold {
        start, begun := i + 1, i + 1;
      }
    }
  }

  /** What becomes of a stream pushed in `pieces` into a fresh decoder, where `inits[i]`
      is what an attempt to initialise at piece `i` gives. The pieces in front of
      `start` are discarded, and a failed attempt at the last of them is why; from there
      on all are kept. The first attempt that succeeds is made with the piece in front
      of `begun`, once the pieces since `start` reach the threshold; without one the
      decoder still waits for them. So nothing is lost when every attempt succeeds. */
  method PushFresh(d: StreamDecoder, pieces: seq<seq<byte>>, inits: seq<bool>, rooms: seq<nat>)
    returns (ghost start: nat, ghost begun: nat)
    requires d.Valid() && !d.ready && d.lost == d.pending == [] && !d.pipe.eof
    requires |inits| == |pieces|
    modifies d, d.pipe
    ensures d.Valid() && start <= begun <= |pieces| && Opening(d, pieces, inits, start, begun, |pieces|)
    ensures d.ready ==> d.pipe.Sent() + d.staging == Joined(pieces, start, |pieces|)
    ensures !d.ready ==> d.pipe.Sent() == [] && |Joined(pieces, start, |pieces|)| < d.threshold
    ensures (forall i :: 0 <= i < |inits| ==> inits[i]) ==>
      d.lost == [] && (d.ready <==> |Flat(pieces)| >= d.threshold)
  {
    hide Joined;
    start, begun := 0, 0;
    NothingJoined(pieces, 0);
    for i := 0 to |pieces|
      invariant d.Valid() && !d.pipe.eof
      invariant start <= begun <= i && Opening(d, pieces, inits, start, begun, i)
    {
      start, begun := PushNext(d, pieces, inits, rooms, i, start, begun);
    }
    JoinedSplit(pieces, start, begun, |pieces|);
    AllJoined(pieces);
    if start == 0 { assert d.lost == []; }
  }

  lemma AllJoined(pieces: seq<seq<byte>>)
    ensures Joined(pieces, 0, |pieces|) == Flat(pieces)
  {
    assert pieces[0..|pieces|] == pieces;
  }

  lemma SentIsPrefix(decoder: StreamDecoder)
    requires decoder.Valid() && decoder.ready && decoder.aligned && !decoder.pipe.eof
    ensures var n := Staged(decoder.patient, decoder.input);
      decoder.pipe.Sent() == decoder.initial + decoder.input[..n] && decoder.staging == decoder.input[n..]
  {
    var n := Staged(decoder.patient, decoder.input);
    Regroup(decoder.pipe.Sent(), decoder.staging, decoder.initial, decoder.input, [], n, 0);
  }

  lemma FlatAppend(a: seq<byte>, fs: seq<seq<byte>>, f: seq<byte>)
    ensures a + Flat(fs + [f]) == a + Flat(fs) + f
  {
    FlatSnoc(fs, f);
    assert a + (Flat(fs) + f) == a + Flat(fs) + f;
  }

  lemma SameSuffix(a: seq<byte>, x: seq<byte>, y: seq<byte>)
    requires a + x == a + y
    ensures x == y
  {
    assert (a + x)[|a|..] == x && (a + y)[|a|..] == y;
  }

  lemma Regroup(
    sent: seq<byte>, staging: seq<byte>, initial: seq<byte>, input: seq<byte>, data: seq<byte>, s: nat, n: nat)
    requires s <= |input| && n <= |staging + data|
    requires sent == initial + input[..s] && sent + staging == initial + input
    ensures staging == input[s..]
    ensures sent + (staging + data)[..n] == initial + (input + data)[..s + n]
  {
    assert initial + input == sent + input[s..];
    SameSuffix(sent, staging, input[s..]);
  }

  lemma Conserves(sent: seq<byte>, staging: seq<byte>, initial: seq<byte>, input: seq<byte>, data: seq<byte>, n: nat)
    requires sent + staging == initial + input && n <= |staging + data|
    ensures (sent + (staging + data)[..n]) + (staging + data)[n..] == initial + (input + data)
    ensures initial + (input + data) == (sent + staging) + data
  {
    assert (staging + data)[..n] + (staging + data)[n..] == staging + data;
    assert initial + (input + data) == (initial + input) + data;
    assert sent + (staging + data) == (sent + staging) + data;
  }

  /** If what was sent ends where a scan of all input does, it still does after the
      staged bytes, with `data` behind them, were scanned and handed on. */
  lemma StagesAll(
    v: Classifier, sent: seq<byte>, staging: seq<byte>, initial: seq<byte>, input: seq<byte>, data: seq<byte>)
    requires Sound(v) && Stable(v)
    requires sent == initial + input[..Staged(v, input)] && sent + staging == initial + input
    ensures sent + (staging + data)[..Staged(v, staging + data)] == initial + (input + data)[..Staged(v, input + data)]
  {
    var s, n := Staged(v, input), Staged(v, staging + data);
    Regroup(sent, staging, initial, input, data, s, n);
    StagedResumes(v, input, data);
  }
}
