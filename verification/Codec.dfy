/** The two codecs' framing: MPEG audio Layer III headers (clause 2.4 of
    ISO/IEC 11172-3) and Ogg pages (section 6 of RFC 3533). */
module Codec {
  import opened Bytes
  import opened Wrappers

  // ── MPEG Layer III frame headers ──────────────────────────────────────────

  /** The eleven sync bits: the byte is 0xFF and the next has its top three bits set. */
  predicate IsSync(a: byte, b: byte) { a == 0xFF && b >= 0xE0 }

  function VersionBits(b: byte): nat { b / 8 % 4 }
  function LayerBits(b: byte): nat { b / 2 % 4 }
  predicate IsMpeg1(b: byte) { VersionBits(b) == 3 }

  function SampleRate(version: nat, index: nat): (hz: Option<nat>)
    ensures hz.Some? ==> if version == 3 then 32_000 <= hz.value <= 48_000 else 8_000 <= hz.value <= 24_000
  {
    if version == 3 then
      if index == 0 then Some(44_100)
      else if index == 1 then Some(48_000) else if index == 2 then Some(32_000) else None
    else if version == 2 then
      if index == 0 then Some(22_050)
      else if index == 1 then Some(24_000) else if index == 2 then Some(16_000) else None
    else if version == 0 then
      if index == 0 then Some(11_025) else if index == 1 then Some(12_000) else if index == 2 then Some(8_000) else None
    else None
  }

  const MPEG1_BITRATES: seq<nat> := [0, 32, 40, 48, 56, 64, 80, 96, 112, 128, 160, 192, 224, 256, 320, 0]
  const MPEG2_BITRATES: seq<nat> := [0, 8, 16, 24, 32, 40, 48, 56, 64, 80, 96, 112, 128, 144, 160, 0]

  /** In kbit/s; None for the free and the forbidden index. */
  function Bitrate(mpeg1: bool, index: nat): (kbps: Option<nat>)
    requires index < 16
    ensures kbps.Some? ==> if mpeg1 then 32 <= kbps.value <= 320 else 8 <= kbps.value <= 160
  {
    if index == 0 || index == 15 then None
    else Some(if mpeg1 then MPEG1_BITRATES[index] else MPEG2_BITRATES[index])
  }

  /** The frame length in bytes that a bitrate and a sample rate give. */
  function FrameLength(mpeg1: bool, kbps: nat, rate: nat, padding: nat): nat
    requires rate > 0
  {
    (if mpeg1 then 144 else 72) * kbps * 1000 / rate + padding
  }

  /** Samples of audio in one Layer III frame. */
  function Samples(mpeg1: bool): nat { if mpeg1 then 1152 else 576 }

  /** Without its padding slot, the frame length is the number of whole bytes that a
      frame's samples take up at the bitrate. */
  lemma FrameHoldsItsSamples(mpeg1: bool, kbps: nat, rate: nat, padding: nat)
    requires rate > 0
    ensures var n := FrameLength(mpeg1, kbps, rate, padding) - padding;
      n * rate * 8 <= Samples(mpeg1) * kbps * 1000 < (n + 1) * rate * 8
  {
    DivisionBounds((if mpeg1 then 144 else 72) * kbps * 1000, rate);
  }

  lemma DivisionBounds(a: nat, d: nat)
    requires d > 0
    ensures a / d * d <= a < (a / d + 1) * d
  {
    assert a == a / d * d + a % d;
  }

  /** The lowest rate of the fastest samples, and the highest of the slowest. */
  lemma FrameBounds(mpeg1: bool, kbps: nat, rate: nat, padding: nat)
    requires if mpeg1 then 32 <= kbps <= 320 else 8 <= kbps <= 160
    requires if mpeg1 then 32_000 <= rate <= 48_000 else 8_000 <= rate <= 24_000
    requires padding <= 1
    ensures (if mpeg1 then 96 else 24) <= FrameLength(mpeg1, kbps, rate, padding) <= 1441
  {
    var a := (if mpeg1 then 144 else 72) * kbps * 1000;
    DivideBetween(a, rate, if mpeg1 then 96 else 24, 1440);
  }

  lemma DivideBetween(a: nat, d: nat, lo: nat, hi: nat)
    requires d > 0 && lo * d <= a <= hi * d
    ensures lo <= a / d <= hi
  {
    DivisionBounds(a, d);
    if a / d < lo { Times(a / d + 1, lo, d); }
    if a / d > hi { Times(hi + 1, a / d, d); }
  }

  lemma Times(a: nat, b: nat, d: nat)
    requires a <= b
    ensures a * d <= b * d
  {
  }

  /** A Layer III header that names a bitrate gives a frame of 24 to 1441 bytes. */
  function FrameSize(h: seq<byte>): (size: Option<nat>)
    ensures size.Some? ==> 24 <= size.value <= 1441
    ensures size.Some? ==> |h| >= 4 && IsSync(h[0], h[1])
  {
    if |h| < 4 || !IsSync(h[0], h[1]) || VersionBits(h[1]) == 1 || LayerBits(h[1]) != 1 then None
    else
      var rate :- SampleRate(VersionBits(h[1]), h[2] / 4 % 4);
      var kbps :- Bitrate(IsMpeg1(h[1]), h[2] / 16);
      FrameBounds(IsMpeg1(h[1]), kbps, rate, h[2] / 2 % 2);
      Some(FrameLength(IsMpeg1(h[1]), kbps, rate, h[2] / 2 % 2))
  }

  /** Every rate is that of MPEG 1 for its index, halved for MPEG 2 and again for MPEG 2.5. */
  lemma SampleRateIs(version: nat, index: nat)
    requires version < 4 && index < 4
    ensures SampleRate(version, index).None? <==> version == 1 || index == 3
    ensures SampleRate(3, 0) == Some(44_100) && SampleRate(3, 1) == Some(48_000) && SampleRate(3, 2) == Some(32_000)
    ensures version != 1 && index != 3 ==>
      SampleRate(version, index).value * (if version == 3 then 1 else if version == 2 then 2 else 4) ==
      SampleRate(3, index).value
  {
  }

  function Power2(n: nat): nat { if n == 0 then 1 else 2 * Power2(n - 1) }

  /** MPEG 1 has four steps to the octave from 32 kbit/s; MPEG 2 goes up in steps of 8
      to 64 kbit/s and of 16 from there. */
  lemma BitrateIs(mpeg1: bool, index: nat)
    requires index < 16
    ensures Bitrate(mpeg1, index).None? <==> index == 0 || index == 15
    ensures 0 < index < 15 ==> Bitrate(mpeg1, index) == Some(
        if mpeg1 then 8 * (4 + (index - 1) % 4) * Power2((index - 1) / 4)
        else if index <= 8 then 8 * index else 16 * (index - 4))
  {
    assert Power2(0) == 1 && Power2(1) == 2 && Power2(2) == 4 && Power2(3) == 8;
  }

  /** Which headers give a frame, and how long it is: its samples, at the rate that the
      header names, take up the bytes but for the padding. */
  lemma FrameSizeIff(h: seq<byte>)
    ensures FrameSize(h).Some? <==>
      && |h| >= 4 && h[0] == 255 && h[1] / 32 == 7 && h[1] / 8 % 4 != 1 && h[1] / 2 % 4 == 1
      && 0 < h[2] / 16 < 15 && h[2] / 4 % 4 != 3
    ensures FrameSize(h).Some? ==>
      var mpeg1 := h[1] / 8 % 4 == 3;
      var bits := Samples(mpeg1) * Bitrate(mpeg1, h[2] / 16).value * 1000;
      var n, rate := FrameSize(h).value - h[2] / 2 % 2, SampleRate(h[1] / 8 % 4, h[2] / 4 % 4).value;
      n * rate * 8 <= bits < (n + 1) * rate * 8
  {
    if |h| >= 4 && h[1] / 8 % 4 != 1 {
      var mpeg1, rate := IsMpeg1(h[1]), SampleRate(VersionBits(h[1]), h[2] / 4 % 4);
      if rate.Some? && Bitrate(mpeg1, h[2] / 16).Some? {
        FrameHoldsItsSamples(mpeg1, Bitrate(mpeg1, h[2] / 16).value, rate.value, h[2] / 2 % 2);
      }
    }
  }

  datatype FrameInfo = FrameInfo(sampleRate: nat, channels: nat, kbps: Option<nat>)

  /** The probe accepts MPEG 2 headers too, but reads no bitrate from them. */
  function Probe(h: seq<byte>): (info: Option<FrameInfo>)
    ensures info.Some? ==> info.value.sampleRate > 0 && (info.value.channels == 1 || info.value.channels == 2)
  {
    if |h| < 4 || !IsSync(h[0], h[1]) || VersionBits(h[1]) == 1 || LayerBits(h[1]) != 1 then None
    else
      var rate :- SampleRate(VersionBits(h[1]), h[2] / 4 % 4);
      Some(FrameInfo(
        rate, if h[3] / 64 == 3 then 1 else 2, if IsMpeg1(h[1]) then Bitrate(true, h[2] / 16) else None))
  }

  // ── Ogg pages ─────────────────────────────────────────────────────────────

  const OGG_MAGIC: seq<byte> := [0x4F, 0x67, 0x67, 0x53]

  lemma OggMagicIs()
    ensures OGG_MAGIC == Ascii("OggS")
  {
    assert |OGG_MAGIC| == |Ascii("OggS")|;
  }

  function Sum(s: seq<byte>): nat { if s == [] then 0 else s[0] + Sum(s[1..]) }

  predicate HasMagic(h: seq<byte>) { |h| >= 4 && h[..4] == OGG_MAGIC }

  /** Total page length, once the header and the whole lacing table are there. */
  function PageSize(h: seq<byte>): (size: Option<nat>)
    ensures size.Some? ==> 27 <= size.value <= 27 + 255 + 255 * 255
  {
    if |h| < 27 || !HasMagic(h) then None
    else
      var n: nat := h[26];
      if |h| < 27 + n then None
      else
        SumBound(h[27..27 + n]);
        Some(27 + n + Sum(h[27..27 + n]))
  }

  lemma {:induction false} SumBound(s: seq<byte>)
    ensures Sum(s) <= 255 * |s|
  {
    if s != [] { SumBound(s[1..]); }
  }
}
