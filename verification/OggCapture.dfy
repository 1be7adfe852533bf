/** Capturing the header pages at the front of an Ogg Vorbis stream (section 6 of
    RFC 3533), fed in pieces. */
module OggCapture {
  import opened Bytes
  import opened Wrappers
  import opened Codec
  import opened StagingSpec

  const MAX_HEADER_BUFFER := 64 * 1024

  /** Where the walk over whole pages ends. */
  datatype Walk =
    | NeedMore(cursor: nat, seen: nat)
    | Complete(cut: nat)
    | NotOgg

  predicate Continued(page: seq<byte>) { |page| > 5 && page[5] % 2 == 1 }

  /** The lowest bit of the header type. */
  lemma ContinuedIff(page: seq<byte>)
    ensures Continued(page) <==> |page| > 5 && (page[5] as bv8) & 1 != 0
  {
    if |page| > 5 { LowBit(page[5]); }
  }

  lemma LowBit(b: byte)
    ensures b % 2 == 1 <==> (b as bv8) & 1 != 0
  {
    var v := b as bv8;
    assert v & 1 == v % 2;
  }

  function Shift(n: nat, w: Walk): Walk {
    match w
    case NeedMore(c, k) => NeedMore(n + c, k)
    case Complete(cut) => Complete(n + cut)
    case NotOgg => NotOgg
  }

  /** Walk the pages of `d`, having seen `seen` pages before it that start a packet.
      The fourth of those is where the audio starts. */
  function WalkFrom(v: Classifier, d: seq<byte>, seen: nat): (w: Walk)
    ensures w.NeedMore? ==> w.cursor <= |d|
    ensures w.Complete? ==> w.cut <= |d|
    decreases |d|
  {
    match v(d)
    case Wait => NeedMore(0, seen)
    case Skip => NotOgg
    case Unit(n) =>
      if n == 0 || n > |d| then NotOgg
      else if Continued(d) then Shift(n, WalkFrom(v, d[n..], seen))
      else if seen >= 3 then Complete(0)
      else Shift(n, WalkFrom(v, d[n..], seen + 1))
  }

  /** The walk that is at `cursor`, in stream positions. */
  function WalkAt(v: Classifier, d: seq<byte>, cursor: nat, seen: nat): Walk
    requires cursor <= |d|
  {
    Shift(cursor, WalkFrom(v, d[cursor..], seen))
  }

  // ── The state machine over values ─────────────────────────────────────────

  datatype State =
    | Collecting(buf: seq<byte>, cursor: nat, seen: nat)
    | Done(header: seq<byte>)
    | Failed

  const START := Collecting([], 0, 0)

  function Settle(d: seq<byte>, w: Walk): State
    requires w.Complete? ==> w.cut <= |d|
  {
    match w
    case NeedMore(c, k) => Collecting(d, c, k)
    case Complete(cut) => Done(d[..cut])
    case NotOgg => Failed
  }

  function PushState(s: State, data: seq<byte>): State
    requires s.Collecting? ==> s.cursor <= |s.buf|
  {
    if !s.Collecting? then s
    else if |s.buf + data| > MAX_HEADER_BUFFER then Failed
    else Settle(s.buf + data, WalkAt(PatientOggVerdict, s.buf + data, s.cursor, s.seen))
  }

  /** What capturing the whole of `d` at once comes to. */
  function Capture(d: seq<byte>): State { Settle(d, WalkFrom(PatientOggVerdict, d, 0)) }

  predicate HasFlagsAt(v: Classifier, d: seq<byte>) { v(d).Unit? ==> |d| > 5 }

  /** A complete page has its header-type byte. */
  ghost predicate HasFlags(v: Classifier) { forall d :: HasFlagsAt(v, d) }

  lemma PagesHaveFlags()
    ensures HasFlags(PatientOggVerdict)
  {
    forall d: seq<byte> ensures HasFlagsAt(PatientOggVerdict, d) {
    }
  }

  /** The number of packets seen to start after the page at the front of `d`. */
  function SeenAfter(d: seq<byte>, seen: nat): nat { if Continued(d) then seen else seen + 1 }

  predicate PassesPage(v: Classifier, d: seq<byte>, seen: nat) { v(d).Unit? && (Continued(d) || seen < 3) }

  lemma WalkStep(v: Classifier, d: seq<byte>, e: seq<byte>, seen: nat)
    requires SoundAt(v, d) && StableAt(v, d, e) && HasFlagsAt(v, d) && PassesPage(v, d, seen)
    ensures var n, k := v(d).size, SeenAfter(d, seen);
      && WalkFrom(v, d, seen) == Shift(n, WalkFrom(v, d[n..], k))
      && WalkFrom(v, d + e, seen) == Shift(n, WalkFrom(v, d[n..] + e, k))
  {
    assert (d + e)[v(d).size..] == d[v(d).size..] + e && (d + e)[5] == d[5];
  }

  /** Pages that are complete stay what they are when more bytes follow: a walk that
      has settled is final, and one that has not resumes where it stopped. */
  lemma {:induction false} WalkResumes(v: Classifier, d: seq<byte>, e: seq<byte>, seen: nat)
    requires Sound(v) && Stable(v) && HasFlags(v)
    ensures var w := WalkFrom(v, d, seen);
      WalkFrom(v, d + e, seen) == if w.NeedMore? then Shift(w.cursor, WalkFrom(v, d[w.cursor..] + e, w.seen)) else w
    decreases |d|
  {
    assert SoundAt(v, d) && StableAt(v, d, e) && HasFlagsAt(v, d);
    if PassesPage(v, d, seen) {
      var n, k := v(d).size, SeenAfter(d, seen);
      WalkStep(v, d, e, seen);
      WalkResumes(v, d[n..], e, k);
      var w := WalkFrom(v, d[n..], k);
      if w.NeedMore? { assert d[n..][w.cursor..] == d[n + w.cursor..]; }
    } else if v(d).Wait? {
      assert d[0..] == d;
    } else if v(d).Unit? {
      assert (d + e)[5] == d[5];
    }
  }

  lemma WalkTurn(v: Classifier, d: seq<byte>, cursor: nat, seen: nat)
    requires cursor <= |d| && SoundAt(v, d[cursor..])
    ensures var page, w := d[cursor..], WalkAt(v, d, cursor, seen);
      && (v(page).Wait? ==> w == NeedMore(cursor, seen))
      && (v(page).Skip? ==> w == NotOgg)
      && (v(page).Unit? && !PassesPage(v, page, seen) ==> w == Complete(cursor))
      && (PassesPage(v, page, seen) ==> w == WalkAt(v, d, cursor + v(page).size, SeenAfter(page, seen)))
  {
    var page := d[cursor..];
    if PassesPage(v, page, seen) { assert page[v(page).size..] == d[cursor + v(page).size..]; }
  }

  /** The loop over the pages that are completely buffered. */
  method WalkPages(v: Classifier, d: seq<byte>, start: nat, seen: nat) returns (w: Walk)
    requires Sound(v) && start <= |d|
    ensures w == WalkAt(v, d, start, seen)
  {
    var cursor, freshPages := start, seen;
    while true
      invariant cursor <= |d| && WalkAt(v, d, cursor, freshPages) == WalkAt(v, d, start, seen)
      decreases |d| - cursor
    {
      var page := d[cursor..];
      assert SoundAt(v, page);
      WalkTurn(v, d, cursor, freshPages);
      match v(page)
      case Wait => return NeedMore(cursor, freshPages);
      case Skip => return NotOgg;
      case Unit(n) =>
        if !Continued(page) {
          if freshPages >= 3 { return Complete(cursor); }
          freshPages := freshPages + 1;
        }
        cursor := cursor + n;
    }
  }

  // ── Any split of the stream ───────────────────────────────────────────────

  /** Before any push, and after: the state is what capturing all bytes so far gives. */
  ghost predicate Tracks(s: State, d: seq<byte>) {
    s == Capture(d) && (s.Collecting? ==> s.cursor <= |s.buf| && |d| <= MAX_HEADER_BUFFER)
  }

  lemma PushTracks(s: State, d: seq<byte>, data: seq<byte>)
    requires Tracks(s, d)
    ensures s.Collecting? && |d + data| > 65_536 ==> PushState(s, data).Failed?
    ensures !(s.Collecting? && |d + data| > 65_536) ==> Tracks(PushState(s, data), d + data)
  {
    PatientOggStable();
    PagesHaveFlags();
    WalkResumes(PatientOggVerdict, d, data, 0);
    if s.Collecting? { assert (d + data)[s.cursor..] == d[s.cursor..] + data; }
    if s.Done? { assert (d + data)[..|s.header|] == d[..|s.header|]; }
  }

  /** Some push takes a capture that has not settled over the cap. */
  predicate Overflows(ds: seq<seq<byte>>) {
    ds != [] && (
      var before := ds[..|ds| - 1];
      Overflows(before) || (Capture(Flat(before)).Collecting? && |Flat(ds)| > MAX_HEADER_BUFFER))
  }

  /** The object that is fed piece by piece. */
  class OggHeaderCapture {
    var buf: seq<byte>
    var cursor: nat
    var freshPages: nat
    var done: bool
    var failed: bool

    predicate Valid()
      reads this
    {
      !(done && failed) && (!done && !failed ==> cursor <= |buf|) && (failed ==> buf == [])
    }

    function Abstract(): State
      reads this
    {
      if done then Done(buf) else if failed then Failed else Collecting(buf, cursor, freshPages)
    }

    constructor ()
      ensures Valid() && Abstract() == START
    {
      buf, cursor, freshPages, done, failed := [], 0, 0, false, false;
    }

    method Push(data: seq<byte>)
      requires Valid()
      modifies this
      ensures Valid() && Abstract() == PushState(old(Abstract()), data)
    {
      if done || failed { return; }
      buf := buf + data;
      if |buf| > MAX_HEADER_BUFFER {
        failed := true;
        buf := [];
        return;
      }
      PatientOggStable();
      var w := WalkPages(PatientOggVerdict, buf, cursor, freshPages);
      match w
      case NeedMore(c, k) => cursor, freshPages := c, k;
      case Complete(cut) => buf, done := buf[..cut], true;
      case NotOgg => buf, failed := [], true;
    }
  }

  /** The state after any sequence of pushes. */
  function PushFold(ds: seq<seq<byte>>): (s: State)
    ensures s.Collecting? ==> s.cursor <= |s.buf|
  {
    if ds == [] then START else PushState(PushFold(ds[..|ds| - 1]), ds[|ds| - 1])
  }

  /** Unless a push overflows the cap before the capture settles, the result is that
      of capturing the whole stream at once. */
  lemma {:induction false} FoldCaptures(ds: seq<seq<byte>>)
    ensures if Overflows(ds) then PushFold(ds).Failed? else Tracks(PushFold(ds), Flat(ds))
  {
    if ds != [] {
      var before, last := ds[..|ds| - 1], ds[|ds| - 1];
      assert ds == before + [last];
      FlatSnoc(before, last);
      FoldCaptures(before);
      if !Overflows(before) { PushTracks(PushFold(before), Flat(before), last); }
    }
  }

  method PushAll(ds: seq<seq<byte>>) returns (c: OggHeaderCapture)
    ensures fresh(c) && c.Valid() && c.Abstract() == PushFold(ds)
    ensures c.Abstract() == if Overflows(ds) then Failed else Capture(Flat(ds))
  {
    c := new OggHeaderCapture();
    for i := 0 to |ds|
      invariant fresh(c) && c.Valid() && c.Abstract() == PushFold(ds[..i])
    {
      assert ds[..i + 1][..i] == ds[..i];
      c.Push(ds[i]);
    }
    assert ds[..|ds|] == ds;
    FoldCaptures(ds);
  }

  /** Within the cap the split does not matter at all. */
  lemma {:induction false} NoOverflowWithinCap(ds: seq<seq<byte>>)
    requires |Flat(ds)| <= 65_536
    ensures !Overflows(ds)
  {
    if ds != [] {
      var before := ds[..|ds| - 1];
      assert ds == before + [ds[|ds| - 1]];
      FlatSnoc(before, ds[|ds| - 1]);
      NoOverflowWithinCap(before);
    }
  }

  // ── What is captured ──────────────────────────────────────────────────────

  predicate IsPage(p: seq<byte>) { PageSize(p) == Some(|p|) }

  /** A page is its header, its lacing table and as many bytes as that adds up to. */
  lemma PageOf(head: seq<byte>, lacing: seq<byte>, body: seq<byte>)
    requires |head| == 26 && HasMagic(head) && |lacing| < 256 && |body| == Sum(lacing)
    ensures IsPage(head + [|lacing|] + lacing + body)
  {
    hide Sum;
    var page := head + [|lacing|] + lacing + body;
    assert page[..4] == head[..4] && page[26] == |lacing|;
    assert page[27..27 + |lacing|] == lacing;
  }

  /** How many of the pages start a packet. */
  function Starts(pages: seq<seq<byte>>): nat {
    if pages == [] then 0 else (if Continued(pages[0]) then 0 else 1) + Starts(pages[1..])
  }

  /** The stream begins with these whole pages, three of which start a packet, and
      goes on with a page that starts the next packet. */
  ghost predicate IsHeader(d: seq<byte>, pages: seq<seq<byte>>, next: seq<byte>, before: nat) {
    && (forall p :: p in pages ==> IsPage(p)) && before + Starts(pages) == 3
    && IsPage(next) && !Continued(next) && Flat(pages) + next <= d
  }

  lemma {:induction false} CapturesHeader(d: seq<byte>, pages: seq<seq<byte>>, next: seq<byte>, seen: nat)
    requires IsHeader(d, pages, next, seen)
    ensures WalkFrom(PatientOggVerdict, d, seen) == Complete(|Flat(pages)|)
    decreases |pages|
  {
    var page := if pages == [] then next else pages[0];
    var behind := if pages == [] then [] else Flat(pages[1..]) + next;
    assert Flat(pages) + next == page + behind;
    PrefixSplit(d, page, behind);
    var more := d[|page|..];
    PatientOggStable();
    assert IsPage(page) && StableAt(PatientOggVerdict, page, more);
    if pages != [] {
      CapturesHeader(more, pages[1..], next, if Continued(page) then seen else seen + 1);
    }
  }

  lemma PrefixSplit(d: seq<byte>, a: seq<byte>, b: seq<byte>)
    requires a + b <= d
    ensures d == a + d[|a|..] && b <= d[|a|..]
  {
    assert d[..|a|] == (a + b)[..|a|] == a;
    assert d[|a|..][..|b|] == d[..|a + b|][|a|..] == b;
  }

  /** A walk that completes has a whole page in front. */
  lemma {:induction false} WalkedPage(d: seq<byte>, seen: nat)
    requires WalkFrom(PatientOggVerdict, d, seen).Complete?
    ensures PageSize(d).Some? && 0 < PageSize(d).value <= |d|
    ensures var w, n := WalkFrom(PatientOggVerdict, d, seen), PageSize(d).value;
      var rest := WalkFrom(PatientOggVerdict, d[n..], if Continued(d) then seen else seen + 1);
      if !Continued(d) && seen >= 3 then w.cut == 0 else rest.Complete? && w.cut == n + rest.cut
  {
  }

  lemma {:induction false} HeaderOf(d: seq<byte>, seen: nat) returns (pages: seq<seq<byte>>, next: seq<byte>)
    requires seen <= 3 && WalkFrom(PatientOggVerdict, d, seen).Complete?
    ensures IsHeader(d, pages, next, seen) && |Flat(pages)| == WalkFrom(PatientOggVerdict, d, seen).cut
    decreases |d|
  {
    hide WalkFrom, PatientOggVerdict, PageSize, Continued;
    WalkedPage(d, seen);
    var n := PageSize(d).value;
    var page := d[..n];
    WholePage(d, n);
    if !Continued(d) && seen >= 3 {
      pages, next := [], page;
      assert Flat(pages) + next == d[..n];
    } else {
      var more;
      more, next := HeaderOf(d[n..], if Continued(d) then seen else seen + 1);
      pages := [page] + more;
      assert d == page + d[n..];
      HeaderCons(d[n..], page, more, next, seen);
    }
  }

  /** A page in front of a header. */
  lemma HeaderCons(d: seq<byte>, page: seq<byte>, more: seq<seq<byte>>, next: seq<byte>, before: nat)
    requires IsPage(page) && IsHeader(d, more, next, if Continued(page) then before else before + 1)
    ensures IsHeader(page + d, [page] + more, next, before)
    ensures Flat([page] + more) == page + Flat(more)
  {
    assert ([page] + more)[1..] == more;
    assert Flat([page] + more) + next == page + (Flat(more) + next);
  }

  lemma WholePage(d: seq<byte>, n: nat)
    requires PageSize(d) == Some(n) && n <= |d|
    ensures IsPage(d[..n]) && Continued(d[..n]) == Continued(d)
  {
    var page := d[..n];
    assert page[..4] == d[..4];
    var segments: nat := d[26];
    assert page[27..27 + segments] == d[27..27 + segments];
  }

  /** The captured bytes are exactly the stream's leading pages up to the fourth that
      starts a packet, and a stream is captured exactly when it has those. */
  lemma CapturedIff(d: seq<byte>, h: seq<byte>)
    ensures Capture(d) == Done(h) <==> exists pages, next :: IsHeader(d, pages, next, 0) && h == Flat(pages)
  {
    if Capture(d) == Done(h) {
      var pages, next := HeaderOf(d, 0);
      assert Flat(pages) <= d;
    }
    if pages, next :| IsHeader(d, pages, next, 0) && h == Flat(pages) {
      CapturesHeader(d, pages, next, 0);
      assert h <= d;
    }
  }

  // ── Header packets ────────────────────────────────────────────────────────

  /** The same bytes are not two lists of whole pages. */
  lemma {:induction false} PagesAreUnique(a: seq<seq<byte>>, b: seq<seq<byte>>)
    requires (forall p :: p in a ==> IsPage(p)) && (forall p :: p in b ==> IsPage(p)) && Flat(a) == Flat(b)
    ensures a == b
  {
    if a != [] && b != [] {
      assert a[0] in a && b[0] in b;
      FirstPage(a[0], Flat(a[1..]));
      FirstPage(b[0], Flat(b[1..]));
      assert a[0] == Flat(a)[..|a[0]|] == b[0];
      assert Flat(a)[|a[0]|..] == Flat(a[1..]) && Flat(b)[|b[0]|..] == Flat(b[1..]);
      PagesAreUnique(a[1..], b[1..]);
    } else {
      PagesHaveBytes(a);
      PagesHaveBytes(b);
    }
  }

  lemma {:induction false} PagesHaveBytes(pages: seq<seq<byte>>)
    requires forall p :: p in pages ==> IsPage(p)
    ensures pages != [] ==> Flat(pages) != []
  {
    if pages != [] { assert pages[0] in pages; }
  }

  lemma FirstPage(p: seq<byte>, behind: seq<byte>)
    requires IsPage(p)
    ensures PageSize(p + behind) == Some(|p|)
  {
    PatientOggStable();
    assert StableAt(PatientOggVerdict, p, behind);
  }

  /** Header pages are captured, and nothing behind them, exactly when three of them are
      fresh: when they do not continue the packet of the page before. */
  lemma HeadersCapturedIff(hs: seq<seq<byte>>, audio: seq<byte>, more: seq<byte>)
    requires (forall p :: p in hs ==> IsPage(p)) && IsPage(audio) && !Continued(audio)
    ensures Capture(Flat(hs) + audio + more) == Done(Flat(hs)) <==> Starts(hs) == 3
  {
    var d := Flat(hs) + audio + more;
    CapturedIff(d, Flat(hs));
    if Starts(hs) == 3 {
      assert IsHeader(d, hs, audio, 0);
    }
    if Capture(d) == Done(Flat(hs)) {
      var pages, next :| IsHeader(d, pages, next, 0) && Flat(hs) == Flat(pages);
      PagesAreUnique(hs, pages);
    }
  }

  lemma {:induction false} StartsAdd(a: seq<seq<byte>>, b: seq<seq<byte>>)
    ensures Starts(a + b) == Starts(a) + Starts(b)
  {
    if a == [] {
      assert a + b == b;
    } else {
      assert (a + b)[1..] == a[1..] + b;
      StartsAdd(a[1..], b);
    }
  }

  lemma {:induction false} StartsFresh(pages: seq<seq<byte>>)
    requires forall p :: p in pages ==> !Continued(p)
    ensures Starts(pages) == |pages|
  {
    if pages != [] {
      assert pages[0] in pages;
      StartsFresh(pages[1..]);
    }
  }

  /** The pages up to and including page `k` of the second list are in front. */
  lemma FlatFront(hs: seq<seq<byte>>, audio: seq<seq<byte>>, k: nat)
    requires k < |audio|
    ensures Flat(hs + audio[..k]) == Flat(hs) + Flat(audio[..k])
    ensures Flat(hs + audio[..k]) + audio[k] <= Flat(hs) + Flat(audio)
  {
    hide Flat;
    FlatAdd(hs, audio[..k]);
    FlatSnoc(audio[..k], audio[k]);
    FlatAdd(audio[..k] + [audio[k]], audio[k + 1..]);
    assert audio == audio[..k] + [audio[k]] + audio[k + 1..];
  }

  /** With fewer fresh header pages, as many audio pages are captured in their place. */
  lemma AudioIsCaptured(hs: seq<seq<byte>>, audio: seq<seq<byte>>, more: seq<byte>)
    requires (forall p :: p in hs ==> IsPage(p)) && (forall p :: p in audio ==> IsPage(p) && !Continued(p))
    requires Starts(hs) <= 3 && |audio| > 3 - Starts(hs)
    ensures Capture(Flat(hs) + Flat(audio) + more) == Done(Flat(hs) + Flat(audio[..3 - Starts(hs)]))
  {
    hide Flat, Starts, IsPage, Capture, Continued;
    var k := 3 - Starts(hs);
    var d, pages, next := Flat(hs) + Flat(audio) + more, hs + audio[..k], audio[k];
    forall p | p in pages ensures IsPage(p) {
      assert p in hs || p in audio;
    }
    StartsFresh(audio[..k]);
    StartsAdd(hs, audio[..k]);
    FlatFront(hs, audio, k);
    assert next in audio && Flat(pages) + next <= d;
    assert IsHeader(d, pages, next, 0);
    CapturedIff(d, Flat(pages));
  }

  /** How many bytes each segment of a page has; one of fewer than 255 ends a packet. */
  function Lacing(p: seq<byte>): seq<byte>
    requires IsPage(p)
  {
    p[27..27 + p[26]]
  }

  /** How many packets start in a lacing table behind its first value. */
  function StartsInside(lacing: seq<byte>): nat {
    if |lacing| < 2 then 0 else (if lacing[0] < 255 then 1 else 0) + StartsInside(lacing[1..])
  }

  /** The lacing values of packets of these sizes, one after the other: as many values of
      255 as are full, and a last one below that (section 5 of RFC 3533). */
  function LacingOf(sizes: seq<nat>): seq<byte> {
    if sizes == [] then [] else PacketLacing(sizes[0]) + LacingOf(sizes[1..])
  }

  function PacketLacing(size: nat): seq<byte> { if size < 255 then [size] else [255] + PacketLacing(size - 255) }

  /** A page of whole packets has one start inside for each packet but the first. */
  lemma {:induction false} PacketsOfLacing(sizes: seq<nat>)
    requires sizes != []
    ensures StartsInside(LacingOf(sizes)) == |sizes| - 1
  {
    if |sizes| == 1 {
      assert LacingOf(sizes) == PacketLacing(sizes[0]) + [];
    } else {
      PacketsOfLacing(sizes[1..]);
      assert LacingOf(sizes[1..]) != [];
    }
    LacedBefore(sizes[0], LacingOf(sizes[1..]));
  }

  lemma {:induction false} LacedBefore(size: nat, rest: seq<byte>)
    ensures StartsInside(PacketLacing(size) + rest) == if rest == [] then 0 else 1 + StartsInside(rest)
    decreases size
  {
    var s := PacketLacing(size) + rest;
    if size < 255 {
      assert s[1..] == rest;
    } else {
      LacedBefore(size - 255, rest);
      assert s[1..] == PacketLacing(size - 255) + rest;
    }
  }

  /** How many packets start in the pages. */
  function Packets(pages: seq<seq<byte>>): nat
    requires forall p :: p in pages ==> IsPage(p)
  {
    if pages == [] then 0
    else
      var p := pages[0];
      assert p in pages;
      (if Continued(p) || Lacing(p) == [] then 0 else 1) + StartsInside(Lacing(p)) + Packets(pages[1..])
  }

  /** Whole pages in which no packet starts behind another. */
  ghost predicate OnePacketEach(pages: seq<seq<byte>>) {
    forall p :: p in pages ==> IsPage(p) && StartsInside(Lacing(p)) == 0
  }

  ghost predicate FilledPages(pages: seq<seq<byte>>) { forall p :: p in pages ==> IsPage(p) && Lacing(p) != [] }

  lemma {:induction false} PacketsAndPages(pages: seq<seq<byte>>)
    requires FilledPages(pages)
    ensures Packets(pages) >= Starts(pages) && (Packets(pages) == Starts(pages) <==> OnePacketEach(pages))
  {
    if pages != [] {
      var p, rest := pages[0], pages[1..];
      assert p in pages && forall q :: q in rest ==> q in pages;
      PacketsAndPages(rest);
      assert forall q :: q in pages ==> q == p || q in rest;
    }
  }

  /** Pages in which the three header packets start, and then a page of audio: exactly
      they are captured if and only if no header packet starts behind another in a page. */
  lemma HeaderPacketsCapturedIff(hs: seq<seq<byte>>, audio: seq<byte>, more: seq<byte>)
    requires FilledPages(hs) && Packets(hs) == 3 && IsPage(audio) && !Continued(audio)
    ensures Capture(Flat(hs) + audio + more) == Done(Flat(hs)) <==> OnePacketEach(hs)
  {
    HeadersCapturedIff(hs, audio, more);
    PacketsAndPages(hs);
  }

  /** A first page of a stream or a packet, with these segments of zeros. */
  function PlainPage(lacing: seq<byte>): seq<byte>
    requires |lacing| < 256
  {
    OGG_MAGIC + Zeros(22) + [|lacing|] + lacing + Zeros(Sum(lacing))
  }

  lemma PlainPageIsPage(lacing: seq<byte>)
    requires |lacing| < 256
    ensures var p := PlainPage(lacing); IsPage(p) && !Continued(p) && Lacing(p) == lacing
  {
    var head := OGG_MAGIC + Zeros(22);
    assert head[..4] == OGG_MAGIC;
    PageOf(head, lacing, Zeros(Sum(lacing)));
    var p := PlainPage(lacing);
    assert p == head + [|lacing|] + lacing + Zeros(Sum(lacing));
    assert p[5] == 0 && p[26] == |lacing| && p[27..27 + |lacing|] == lacing;
  }

  /** The comment and the setup header in one page: the first page of audio is captured
      with them. */
  lemma SharedPageTakesAudio()
    ensures var hs, audio := [PlainPage([1]), PlainPage([1, 1])], PlainPage([1]);
      && FilledPages(hs) && Packets(hs) == 3
      && Capture(Flat(hs) + Flat([audio, audio])) == Done(Flat(hs) + audio)
  {
    var hs, audio := [PlainPage([1]), PlainPage([1, 1])], PlainPage([1]);
    PlainPageIsPage([1]);
    PlainPageIsPage([1, 1]);
    assert hs[1..] == [PlainPage([1, 1])];
    assert StartsInside([1, 1]) == 1 + StartsInside([1]) by { assert [1, 1][1..] == [1]; }
    assert Starts(hs) == 2 && Packets(hs) == 3;
    AudioIsCaptured(hs, [audio, audio], []);
    assert [audio, audio][..1] == [audio] && Flat([audio]) == audio + Flat([]) == audio;
    assert Flat(hs) + Flat([audio, audio]) + [] == Flat(hs) + Flat([audio, audio]);
  }
}
