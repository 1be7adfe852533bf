/** Chunked bodies as a sender writes them, and the two directions between them
    and the decoder: it inverts every encoding, and it reports a clean end of
    stream for nothing else. */
module ChunkedRoundTrip {
  import opened Bytes
  import opened Wrappers
  import opened Scripts
  import opened ChunkedSpec
  import opened Chunked
  import Unicode

  /** `line` is the chunk-size line without its CRLF, extensions included. */
  datatype Chunk = Chunk(line: seq<byte>, payload: seq<byte>)

  datatype Body = Body(chunks: seq<Chunk>, last: seq<byte>, trailers: seq<seq<byte>>)

  ghost predicate GoodLine(line: seq<byte>, limit: nat) {
    !HasCrlf(line) && |line| + 2 <= limit
  }

  ghost predicate GoodChunk(c: Chunk) {
    GoodLine(c.line, MAX_SIZE_LINE_BYTES) && c.payload != [] && ParseChunkSize(c.line) == Some(|c.payload|)
  }

  ghost predicate WellFormed(b: Body) {
    && (forall i :: 0 <= i < |b.chunks| ==> GoodChunk(b.chunks[i]))
    && GoodLine(b.last, MAX_SIZE_LINE_BYTES) && ParseChunkSize(b.last) == Some(0)
    && (forall i :: 0 <= i < |b.trailers| ==> b.trailers[i] != [] && GoodLine(b.trailers[i], MAX_TRAILER_BYTES))
  }

  function EncodeTrailers(trailers: seq<seq<byte>>): seq<byte> {
    if trailers == [] then CRLF else trailers[0] + CRLF + EncodeTrailers(trailers[1..])
  }

  function EncodeFrom(chunks: seq<Chunk>, tail: seq<byte>): seq<byte> {
    if chunks == [] then tail
    else chunks[0].line + CRLF + (chunks[0].payload + (CRLF + EncodeFrom(chunks[1..], tail)))
  }

  function Encode(b: Body): seq<byte> {
    EncodeFrom(b.chunks, b.last + CRLF + EncodeTrailers(b.trailers))
  }

  function Payloads(chunks: seq<Chunk>): seq<byte> {
    if chunks == [] then [] else chunks[0].payload + Payloads(chunks[1..])
  }

  // ── Lines ─────────────────────────────────────────────────────────────────

  lemma NoCrlfPrefix(s: seq<byte>, k: nat)
    requires k <= |s| && !HasCrlf(s)
    ensures !HasCrlf(s[..k])
  {
    if HasCrlf(s[..k]) {
      var i :| CrlfAt(s[..k], i);
      assert CrlfAt(s, i);
    }
  }

  lemma NoCrlfAppend(s: seq<byte>, b: byte)
    requires !HasCrlf(s) && !EndsLine(s + [b])
    ensures !HasCrlf(s + [b])
  {
    forall i: nat ensures !CrlfAt(s + [b], i) {
      assert i + 1 < |s| ==> CrlfAt(s + [b], i) == CrlfAt(s, i);
    }
  }

  /** A good line followed by CRLF is consumed whole, wherever the reading of it
      resumes. */
  lemma {:induction false} DecodeLine(state: State, line: seq<byte>, k: nat, rest: seq<byte>)
    requires state.NextSize? || state.Trailers?
    requires GoodLine(line, LineLimit(state)) && k <= |line| + 1
    ensures var text := line + CRLF;
      Decode(Config(state, text[..k]), text[k..] + rest)
        == After([], |text| - k, Decode(Config(AfterLine(state, line), []), rest))
    decreases |line| + 2 - k
  {
    hide AfterLine, HasCrlf;
    var text := line + CRLF;
    var input := text[k..] + rest;
    var scratch := text[..k] + [text[k]];
    assert input[0] == text[k] && input[1..] == text[k + 1..] + rest && scratch == text[..k + 1];
    if k == |line| + 1 {
      assert scratch == line + CRLF && scratch[..|scratch| - 2] == line;
      assert LineConfig(state, scratch) == Config(AfterLine(state, line), []);
      assert input[1..] == rest;
    } else {
      assert !EndsLine(scratch) by {
        if EndsLine(scratch) { FoundCrlf(line, k - 1); }
      }
      assert LineConfig(state, scratch) == Config(state, text[..k + 1]);
      DecodeLine(state, line, k + 1, rest);
      AfterAfter([], 1, [], |text| - k - 1, Decode(Config(AfterLine(state, line), []), rest));
    }
  }

  lemma DecodeWholeLine(state: State, line: seq<byte>, rest: seq<byte>)
    requires state.NextSize? || state.Trailers?
    requires GoodLine(line, LineLimit(state))
    ensures Decode(Config(state, []), line + CRLF + rest)
         == After([], |line| + 2, Decode(Config(AfterLine(state, line), []), rest))
  {
    DecodeLine(state, line, 0, rest);
    assert (line + CRLF)[..0] == [] && (line + CRLF)[0..] == line + CRLF;
  }

  lemma {:induction false} LineTooLong(state: State, input: seq<byte>, k: nat)
    requires (state.NextSize? || state.Trailers?) && k < LineLimit(state) <= |input|
    requires !HasCrlf(input[..LineLimit(state)])
    ensures Decode(Config(state, input[..k]), input[k..]).last.state.Errored?
    decreases LineLimit(state) - k
  {
    hide AfterLine, HasCrlf;
    var scratch := input[..k] + [input[k]];
    assert scratch == input[..k + 1] && input[k..][1..] == input[k + 1..];
    assert !EndsLine(scratch) by {
      if EndsLine(scratch) { FoundCrlf(input[..LineLimit(state)], k - 1); }
    }
    if k + 1 < LineLimit(state) {
      LineTooLong(state, input, k + 1);
    } else {
      SettledStays(Config(Errored, scratch), input[k + 1..]);
    }
  }

  lemma NoCrlfUpToCr(line: seq<byte>, rest: seq<byte>, n: nat)
    requires !HasCrlf(line) && n <= |line| + 1
    ensures !HasCrlf((line + CRLF + rest)[..n])
  {
    var front := (line + CRLF + rest)[..n];
    if HasCrlf(front) {
      var i :| CrlfAt(front, i);
      FoundCrlf(line, i);
    }
  }

  lemma DelimitersAre()
    ensures CRLF == Ascii("\r\n") && [SEMICOLON] == Ascii(";")
  {
  }

  /** A size line has at most 62 bytes, a trailer line at most 4094; whatever is longer is
      bad data. */
  lemma LineLimits(line: seq<byte>, rest: seq<byte>)
    requires !HasCrlf(line)
    ensures var r := Decode(INITIAL, line + CRLF + rest);
      if |line| > 62 then r.last.state.Errored?
      else r == After([], |line| + 2, Decode(Config(AfterLine(NextSize, line), []), rest))
    ensures var r := Decode(Config(Trailers, []), line + CRLF + rest);
      if |line| > 4094 then r.last.state.Errored?
      else r == After([], |line| + 2, Decode(Config(AfterLine(Trailers, line), []), rest))
  {
    hide Decode, HasCrlf, AfterLine;
    var input := line + CRLF + rest;
    assert input[..0] == [] && input[0..] == input;
    if |line| > 62 {
      NoCrlfUpToCr(line, rest, 64);
      LineTooLong(NextSize, input, 0);
    } else {
      DecodeWholeLine(NextSize, line, rest);
    }
    if |line| > 4094 {
      NoCrlfUpToCr(line, rest, 4096);
      LineTooLong(Trailers, input, 0);
    } else {
      DecodeWholeLine(Trailers, line, rest);
    }
  }

  // ── The decoder inverts the encoder ───────────────────────────────────────

  lemma {:induction false} DecodeTrailers(trailers: seq<seq<byte>>, rest: seq<byte>)
    requires forall i :: 0 <= i < |trailers| ==> trailers[i] != [] && GoodLine(trailers[i], MAX_TRAILER_BYTES)
    ensures Decode(Config(Trailers, []), EncodeTrailers(trailers) + rest)
         == Outcome([], Config(Done, []), |EncodeTrailers(trailers)|)
    decreases |trailers|
  {
    if trailers == [] {
      assert CRLF + rest == [] + CRLF + rest;
      DecodeWholeLine(Trailers, [], rest);
    } else {
      var more := EncodeTrailers(trailers[1..]);
      assert EncodeTrailers(trailers) + rest == trailers[0] + CRLF + (more + rest);
      DecodeWholeLine(Trailers, trailers[0], more + rest);
      DecodeTrailers(trailers[1..], rest);
    }
  }

  lemma DecodeCrlf(rest: seq<byte>)
    ensures Decode(Config(AfterPayload(0), []), CRLF + rest) == After([], 2, Decode(Config(NextSize, []), rest))
  {
    hide Decode;
    CrlfPush(0, CR);
    CrlfPush(1, LF);
    MovesOn(Config(AfterPayload(0), []), [CR], [], Config(AfterPayload(1), []), [LF], [], INITIAL);
    assert [CR] + [LF] == CRLF;
    DecodeOn(Config(AfterPayload(0), []), CRLF, rest);
  }

  lemma DecodeChunk(c: Chunk, rest: seq<byte>)
    requires GoodChunk(c)
    ensures Decode(INITIAL, c.line + CRLF + (c.payload + (CRLF + rest)))
         == After(c.payload, |c.line| + 2 + |c.payload| + 2, Decode(INITIAL, rest))
  {
    var n, closing := |c.payload|, CRLF + rest;
    DecodeWholeLine(NextSize, c.line, c.payload + closing);
    DecodePayload(n, c.payload + closing, n);
    assert (c.payload + closing)[..n] == c.payload && (c.payload + closing)[n..] == closing;
    DecodeCrlf(rest);
    AfterAfter(c.payload, n, [], 2, Decode(INITIAL, rest));
    AfterAfter([], |c.line| + 2, c.payload + [], n + 2, Decode(INITIAL, rest));
    assert [] + (c.payload + []) == c.payload;
  }

  lemma EncodeChunk(c: Chunk, more: Body, rest: seq<byte>)
    ensures Encode(more.(chunks := [c] + more.chunks)) + rest
         == c.line + CRLF + (c.payload + (CRLF + (Encode(more) + rest)))
    ensures |Encode(more.(chunks := [c] + more.chunks))| == |c.line| + 2 + |c.payload| + 2 + |Encode(more)|
    ensures Payloads([c] + more.chunks) == c.payload + Payloads(more.chunks)
  {
    var chunks := [c] + more.chunks;
    assert chunks[1..] == more.chunks;
  }

  lemma DecodeEnd(b: Body, rest: seq<byte>)
    requires WellFormed(b) && b.chunks == []
    ensures Decode(INITIAL, Encode(b) + rest) == Outcome([], Config(Done, []), |Encode(b)|)
  {
    hide Decode, GoodChunk;
    var trailers := EncodeTrailers(b.trailers);
    var after := Decode(Config(Trailers, []), trailers + rest);
    assert Encode(b) + rest == b.last + CRLF + (trailers + rest);
    assert after == Outcome([], Config(Done, []), |trailers|) by { DecodeTrailers(b.trailers, rest); }
    assert AfterLine(NextSize, b.last) == Trailers;
    DecodeWholeLine(NextSize, b.last, trailers + rest);
  }

  /** Chunked decoding inverts chunked encoding, and consumes not one byte past
      the final CRLF. */
  lemma {:induction false} DecodeInvertsEncode(b: Body, rest: seq<byte>)
    requires WellFormed(b)
    ensures Decode(INITIAL, Encode(b) + rest) == Outcome(Payloads(b.chunks), Config(Done, []), |Encode(b)|)
    decreases |b.chunks|
  {
    hide Decode, GoodChunk, GoodLine, EncodeFrom, ParseChunkSize;
    if b.chunks == [] {
      DecodeEnd(b, rest);
    } else {
      var c, more := b.chunks[0], b.(chunks := b.chunks[1..]);
      assert b == more.(chunks := [c] + more.chunks);
      EncodeChunk(c, more, rest);
      DecodeChunk(c, Encode(more) + rest);
      DecodeInvertsEncode(more, rest);
    }
  }

  // ── And accepts nothing else ──────────────────────────────────────────────

  /** If decoding gets past the line being read, a good line is there. */
  lemma {:induction false} SplitLine(state: State, scratch: seq<byte>, input: seq<byte>)
    returns (line: seq<byte>, rest: seq<byte>)
    requires state.NextSize? || state.Trailers?
    requires !HasCrlf(scratch) && |scratch| < LineLimit(state)
    requires Decode(Config(state, scratch), input).last.state.Done?
    ensures scratch + input == line + CRLF + rest && GoodLine(line, LineLimit(state))
    decreases |input|
  {
    var read := scratch + [input[0]];
    assert scratch + input == read + input[1..];
    if EndsLine(read) {
      line, rest := read[..|read| - 2], input[1..];
      assert read == line + CRLF;
      assert line == scratch[..|line|];
      NoCrlfPrefix(scratch, |line|);
    } else {
      NoCrlfAppend(scratch, input[0]);
      line, rest := SplitLine(state, read, input[1..]);
    }
  }

  lemma {:induction false} SplitTrailers(input: seq<byte>) returns (trailers: seq<seq<byte>>, rest: seq<byte>)
    requires Decode(Config(Trailers, []), input).last.state.Done?
    ensures forall i :: 0 <= i < |trailers| ==> trailers[i] != [] && GoodLine(trailers[i], MAX_TRAILER_BYTES)
    ensures input == EncodeTrailers(trailers) + rest
    decreases |input|
  {
    var line, tail := SplitLine(Trailers, [], input);
    assert [] + input == input;
    DecodeWholeLine(Trailers, line, tail);
    if line == [] {
      trailers, rest := [], tail;
      assert input == CRLF + tail;
    } else {
      var more;
      more, rest := SplitTrailers(tail);
      trailers := [line] + more;
      assert trailers[1..] == more;
    }
  }

  /** A decoder that gets through `AfterPayload(seen)` found the wanted byte there. */
  lemma {:induction false} SplitCrlfByte(seen: nat, input: seq<byte>)
    requires seen <= 1 && Decode(Config(AfterPayload(seen), []), input).last.state.Done?
    ensures input != [] && input[0] == if seen == 0 then CR else LF
    ensures Decode(Config(if seen == 0 then AfterPayload(1) else NextSize, []), input[1..]).last.state.Done?
  {
  }

  lemma {:induction false} SplitCrlf(input: seq<byte>)
    requires Decode(Config(AfterPayload(0), []), input).last.state.Done?
    ensures 2 <= |input| && input[..2] == CRLF && Decode(INITIAL, input[2..]).last.state.Done?
  {
    hide Decode;
    SplitCrlfByte(0, input);
    SplitCrlfByte(1, input[1..]);
    assert input[1..][1..] == input[2..];
  }

  /** The payload of `n` bytes and its CRLF are there. */
  lemma {:induction false} SplitPayload(n: nat, input: seq<byte>) returns (rest: seq<byte>)
    requires n > 0 && Decode(Config(Payload(n), []), input).last.state.Done?
    ensures n <= |input| && input == input[..n] + (CRLF + rest) && |rest| < |input|
    ensures Decode(INITIAL, rest).last.state.Done?
  {
    var k := if n <= |input| then n else |input|;
    DecodePayload(n, input, k);
    SplitCrlf(input[k..]);
    rest := input[k..][2..];
    assert input[k..] == CRLF + rest;
  }

  lemma {:induction false} SplitBody(input: seq<byte>) returns (b: Body, rest: seq<byte>)
    requires Decode(INITIAL, input).last.state.Done?
    ensures WellFormed(b) && input == Encode(b) + rest
    decreases |input|
  {
    hide Decode, ParseChunkSize;
    var line, tail := SplitLine(NextSize, [], input);
    assert [] + input == input;
    DecodeWholeLine(NextSize, line, tail);
    if ParseChunkSize(line).None? { SettledStays(Config(Errored, []), tail); }
    var n := ParseChunkSize(line).value;
    if n == 0 {
      var trailers;
      trailers, rest := SplitTrailers(tail);
      b := Body([], line, trailers);
      assert input == line + CRLF + EncodeTrailers(trailers) + rest;
    } else {
      var next := SplitPayload(n, tail);
      var more;
      more, rest := SplitBody(next);
      var c := Chunk(line, tail[..n]);
      b := more.(chunks := [c] + more.chunks);
      EncodeChunk(c, more, rest);
    }
  }

  /** A clean end of stream is reported exactly for inputs that start with a
      well-formed chunked body. */
  lemma CleanEndIff(input: seq<byte>)
    ensures Decode(INITIAL, input).last.state.Done? <==> exists b, rest :: WellFormed(b) && input == Encode(b) + rest
  {
    if Decode(INITIAL, input).last.state.Done? {
      var b, rest := SplitBody(input);
    }
    if exists b, rest :: WellFormed(b) && input == Encode(b) + rest {
      var b, rest :| WellFormed(b) && input == Encode(b) + rest;
      DecodeInvertsEncode(b, rest);
    }
  }

  // ── Size lines that follow the grammar ────────────────────────────────────

  function Hex(n: nat): seq<byte> {
    var digit: byte := if n % 16 < 10 then 48 + n % 16 else 87 + n % 16;
    if n < 16 then [digit] else Hex(n / 16) + [digit]
  }

  lemma {:induction false} HexIsHex(n: nat)
    ensures Hex(n) != [] && AllHex(Hex(n)) && HexValue(Hex(n)) == n
  {
    var s := Hex(n);
    if n >= 16 {
      HexIsHex(n / 16);
      assert s[..|s| - 1] == Hex(n / 16);
    } else {
      assert s[..0] == [];
    }
  }

  function Pow16(k: nat): nat {
    if k == 0 then 1 else 16 * Pow16(k - 1)
  }

  lemma {:induction false} HexLength(n: nat, k: nat)
    requires n < Pow16(k) && k > 0
    ensures |Hex(n)| <= k
  {
    if n >= 16 {
      HexLength(n / 16, k - 1);
    }
  }

  lemma {:induction false} BeforeExtension(digits: seq<byte>, extension: seq<byte>)
    requires AllHex(digits) && (extension == [] || extension[0] == SEMICOLON)
    ensures BeforeSemicolon(digits + extension) == digits
  {
    if digits == [] {
      assert digits + extension == extension;
    } else {
      assert (digits + extension)[1..] == digits[1..] + extension;
      BeforeExtension(digits[1..], extension);
    }
  }

  lemma HexIsNotSpace(digits: seq<byte>)
    requires digits != [] && AllHex(digits)
    ensures TrimStart(digits) == digits && TrimEnd(digits) == digits && digits[0] != 43
  {
    assert IsHexDigit(digits[0]) && IsHexDigit(digits[|digits| - 1]);
    assert SpaceAt(digits) == 0 && SpaceEnd(digits) == 0;
  }

  // ── All the size lines there are ──────────────────────────────────────────

  /** A digit of the value: its place in one of the two rows of digits. */
  predicate Spells(s: seq<byte>, values: seq<nat>) {
    |s| == |values| && forall i :: 0 <= i < |s| ==> SpellsAt(s[i], values[i])
  }

  predicate SpellsAt(b: byte, value: nat) {
    value < 16 && (b as char == "0123456789ABCDEF"[value] || b as char == "0123456789abcdef"[value])
  }

  lemma DigitIff(b: byte, value: nat)
    ensures IsHexDigit(b) && DigitValue(b) == value <==> SpellsAt(b, value)
  {
  }

  /** The number that the digits denote, the most significant first. */
  function Positional(values: seq<nat>): nat {
    if values == [] then 0 else values[0] * Pow16(|values| - 1) + Positional(values[1..])
  }

  lemma {:induction false} PositionalSnoc(values: seq<nat>, v: nat)
    ensures Positional(values + [v]) == 16 * Positional(values) + v
  {
    if values == [] {
      assert [v][1..] == [] && Pow16(0) == 1;
    } else {
      assert (values + [v])[1..] == values[1..] + [v];
      PositionalSnoc(values[1..], v);
      ShiftOnce(values[0], Pow16(|values| - 1));
    }
  }

  lemma ShiftOnce(v: nat, p: nat)
    ensures v * (16 * p) == 16 * (v * p)
  {
  }

  /** Digits in either case are read as the number they denote. */
  lemma {:induction false} HexValueIs(s: seq<byte>, values: seq<nat>)
    requires Spells(s, values)
    ensures AllHex(s) && HexValue(s) == Positional(values)
    decreases |s|
  {
    hide SpellsAt;
    forall i | 0 <= i < |s| ensures IsHexDigit(s[i]) {
      DigitIff(s[i], values[i]);
    }
    if s != [] {
      var n := |s| - 1;
      HexValueIs(s[..n], values[..n]);
      assert values == values[..n] + [values[n]];
      PositionalSnoc(values[..n], values[n]);
      DigitIff(s[n], values[n]);
    }
  }

  /** Every hexadecimal number below 2^64, in either case, with leading zeros or
      an extension, is read as its value. */
  lemma ParseHexLine(digits: seq<byte>, values: seq<nat>, extension: seq<byte>)
    requires digits != [] && Spells(digits, values) && Positional(values) < 0x1_0000_0000_0000_0000
    requires extension == [] || extension[..1] == Ascii(";")
    ensures ParseChunkSize(digits + extension) == Some(Positional(values))
  {
    hide Spells, Positional;
    HexValueIs(digits, values);
    assert extension != [] ==> extension[..1][0] == extension[0];
    BeforeExtension(digits, extension);
    HexIsNotSpace(digits);
  }

  lemma SpellsItself(s: seq<byte>) returns (values: seq<nat>)
    requires AllHex(s)
    ensures Spells(s, values)
  {
    values := seq(|s|, i requires 0 <= i < |s| => if IsHexDigit(s[i]) then DigitValue(s[i]) else 0);
    forall i | 0 <= i < |s| ensures SpellsAt(s[i], values[i]) {
      assert IsHexDigit(s[i]);
      DigitIff(s[i], values[i]);
    }
  }

  function Wide(a: int, b: int, c: int): nat
    requires a >= 0xE0 && b >= 0x80 && c >= 0x80
  {
    (a - 0xE0) * 4096 + (b - 0x80) * 64 + (c - 0x80)
  }

  lemma WideIsUnicode(a: byte, b: byte, c: byte)
    requires IsWideSpace(a, b, c)
    ensures a >= 0xE0 && b >= 0x80 && c >= 0x80 && 0x800 <= Wide(a, b, c) < 0x1_0000
    ensures Unicode.IsWhiteSpace(Wide(a, b, c)) && Unicode.Utf8(Wide(a, b, c)) == [a, b, c]
  {
    hide Unicode.Utf8;
    Unicode.ThreeBytes(a - 0xE0, b - 0x80, c - 0x80);
  }

  lemma UnicodeIsWide(c: nat)
    requires 0x800 <= c < 0x1_0000 && Unicode.IsWhiteSpace(c)
    ensures var u := Unicode.Utf8(c); |u| == 3 && IsWideSpace(u[0], u[1], u[2])
  {
    if c < 0x2000 {
      assert c == 0x1680 && Unicode.Utf8(c) == [0xE1, 0x9A, 0x80];
    } else if c < 0x2040 {
      assert c / 4096 == 2 && c / 64 == 0x80 && c % 64 == c - 0x2000;
    } else if c < 0x3000 {
      assert c == 0x205F && Unicode.Utf8(c) == [0xE2, 0x81, 0x9F];
    } else {
      assert c == 0x3000 && Unicode.Utf8(c) == [0xE3, 0x80, 0x80];
    }
  }

  /** `s` starts with a white-space character that UTF-8 writes in `n` bytes. */
  ghost predicate StartsWithSpace(s: seq<byte>, n: nat) {
    exists c: nat :: c < 0x1_0000 && Unicode.IsWhiteSpace(c) && Unicode.Utf8(c) <= s && |Unicode.Utf8(c)| == n
  }

  lemma Utf8OfShort(c: nat)
    requires c < 0x80 || c == 0x85 || c == 0xA0
    ensures Unicode.Utf8(c) == if c < 0x80 then [c] else [0xC2, c]
  {
  }

  lemma SpaceIsUnicode(s: seq<byte>)
    requires SpaceAt(s) > 0
    ensures StartsWithSpace(s, SpaceAt(s))
  {
    hide Unicode.Utf8, IsWideSpace, Wide;
    var n := SpaceAt(s);
    if n == 3 {
      WideIsUnicode(s[0], s[1], s[2]);
      assert s[..3] == Unicode.Utf8(Wide(s[0], s[1], s[2]));
    } else {
      var c: nat := if n == 1 then s[0] else s[1];
      Utf8OfShort(c);
      assert Unicode.IsWhiteSpace(c) && Unicode.Utf8(c) == s[..n];
    }
  }

  lemma UnicodeIsSpace(s: seq<byte>, n: nat)
    requires StartsWithSpace(s, n)
    ensures SpaceAt(s) == n > 0
  {
    var c: nat :| c < 0x1_0000 && Unicode.IsWhiteSpace(c) && Unicode.Utf8(c) <= s && |Unicode.Utf8(c)| == n;
    if c >= 0x800 {
      UnicodeIsWide(c);
      WideIsNotShort(s, Unicode.Utf8(c));
    } else {
      assert s[0] == Unicode.Utf8(c)[0] && (n > 1 ==> s[1] == Unicode.Utf8(c)[1]);
    }
  }

  lemma WideIsNotShort(s: seq<byte>, u: seq<byte>)
    requires |u| == 3 && u <= s && IsWideSpace(u[0], u[1], u[2])
    ensures SpaceAt(s) == 3
  {
    assert s[0] == u[0] && s[1] == u[1] && s[2] == u[2];
  }

  /** What counts as a white-space character at the start of a text is one of Unicode's. */
  lemma SpaceAtIff(s: seq<byte>, n: nat)
    requires n > 0
    ensures SpaceAt(s) == n <==> StartsWithSpace(s, n)
  {
    hide SpaceAt, StartsWithSpace;
    if SpaceAt(s) == n { SpaceIsUnicode(s); }
    if StartsWithSpace(s, n) { UnicodeIsSpace(s, n); }
  }

  /** White-space characters, one after the other. */
  predicate Spaces(s: seq<byte>)
    decreases |s|
  {
    s == [] || (SpaceAt(s) > 0 && Spaces(s[SpaceAt(s)..]))
  }

  /** What a size line may consist of; `plus` is empty or a sign, and `values` are those
      of the digits. */
  datatype SizeLine = SizeLine(
    lead: seq<byte>, plus: seq<byte>, digits: seq<byte>, values: seq<nat>, trail: seq<byte>, extension: seq<byte>)

  function Core(l: SizeLine): seq<byte> { l.plus + l.digits }

  function Text(l: SizeLine): seq<byte> { l.lead + (Core(l) + l.trail) + l.extension }

  predicate SizeLineOf(l: SizeLine, n: nat) {
    && Spaces(l.lead) && (l.plus == [] || l.plus == Ascii("+")) && Spaces(l.trail)
    && l.digits != [] && Spells(l.digits, l.values) && Positional(l.values) == n && n < 0x1_0000_0000_0000_0000
    && (l.extension == [] || l.extension[..1] == Ascii(";"))
  }

  /** The same in the parser's own terms. */
  predicate HexLineOf(l: SizeLine, n: nat) {
    && Spaces(l.lead) && (l.plus == [] || l.plus == [43]) && Spaces(l.trail)
    && l.digits != [] && AllHex(l.digits) && HexValue(l.digits) == n && n < U64_LIMIT
    && (l.extension == [] || l.extension[0] == SEMICOLON)
  }

  lemma SizeLineIsHexLine(l: SizeLine, n: nat)
    requires SizeLineOf(l, n)
    ensures HexLineOf(l, n)
  {
    hide Spaces, HexValue, AllHex, Spells, Positional;
    HexValueIs(l.digits, l.values);
    assert l.extension != [] ==> l.extension[..1][0] == l.extension[0];
    assert Ascii("+") == [43];
  }

  lemma HexLineIsSizeLine(l: SizeLine, n: nat)
    requires HexLineOf(l, n) && Spells(l.digits, l.values)
    ensures SizeLineOf(l, n)
  {
    hide Spaces, HexValue, AllHex, Spells, Positional;
    HexValueIs(l.digits, l.values);
    assert l.extension != [] ==> l.extension[..1] == [SEMICOLON];
    assert Ascii("+") == [43] && Ascii(";") == [SEMICOLON];
  }

  /** A white-space character at the start of `s` is the one of any longer sequence. */
  lemma SpaceAtFront(s: seq<byte>, more: seq<byte>)
    requires SpaceAt(s) > 0
    ensures SpaceAt(s + more) == SpaceAt(s)
  {
  }

  lemma SpaceEndBehind(front: seq<byte>, s: seq<byte>)
    requires SpaceEnd(s) > 0
    ensures SpaceEnd(front + s) == SpaceEnd(s)
  {
    var all := front + s;
    assert all[|all| - 1] == s[|s| - 1];
    assert |s| >= 2 ==> all[|all| - 2] == s[|s| - 2];
    assert |s| >= 3 ==> all[|all| - 3] == s[|s| - 3];
  }

  /** The two ways of looking at one white-space character. */
  lemma SpaceAtIsSpaceEnd(s: seq<byte>)
    ensures SpaceAt(s) == |s| > 0 <==> SpaceEnd(s) == |s| > 0
  {
  }

  lemma {:induction false} SpacesEnd(s: seq<byte>)
    requires Spaces(s) && s != []
    ensures SpaceEnd(s) > 0 && Spaces(s[..|s| - SpaceEnd(s)])
    decreases |s|
  {
    var k := SpaceAt(s);
    var rest := s[k..];
    SpaceAtFirst(s);
    SpaceAtIsSpaceEnd(s[..k]);
    assert s == s[..k] + rest;
    if rest == [] {
      assert s[..k] == s;
    } else {
      SpacesEnd(rest);
      SpaceEndBehind(s[..k], rest);
      var shorter := rest[..|rest| - SpaceEnd(rest)];
      assert s[..|s| - SpaceEnd(s)] == s[..k] + shorter;
      SpacesCons(s[..k], shorter);
    }
  }

  lemma SpaceAtFirst(s: seq<byte>)
    requires SpaceAt(s) > 0
    ensures SpaceAt(s[..SpaceAt(s)]) == SpaceAt(s)
  {
  }

  lemma SpacesCons(w: seq<byte>, s: seq<byte>)
    requires SpaceAt(w) == |w| > 0 && Spaces(s)
    ensures Spaces(w + s)
  {
    SpaceAtFront(w, s);
    assert (w + s)[|w|..] == s;
  }

  lemma {:induction false} TrimStartDrops(lead: seq<byte>, s: seq<byte>)
    requires Spaces(lead) && SpaceAt(s) == 0
    ensures TrimStart(lead + s) == s
    decreases |lead|
  {
    if lead == [] {
      assert lead + s == s;
    } else {
      var k := SpaceAt(lead);
      SpaceAtFront(lead, s);
      assert (lead + s)[k..] == lead[k..] + s;
      TrimStartDrops(lead[k..], s);
    }
  }

  lemma {:induction false} TrimEndDrops(s: seq<byte>, trail: seq<byte>)
    requires SpaceEnd(s) == 0 && Spaces(trail)
    ensures TrimEnd(s + trail) == s
    decreases |trail|
  {
    hide SpaceAt, SpaceEnd, Spaces;
    if trail == [] {
      assert s + trail == s;
    } else {
      SpacesEnd(trail);
      SpaceEndBehind(s, trail);
      var shorter := trail[..|trail| - SpaceEnd(trail)];
      assert (s + trail)[..|s + trail| - SpaceEnd(trail)] == s + shorter;
      TrimEndDrops(s, shorter);
    }
  }

  lemma {:induction false} TrimStartStep(s: seq<byte>)
    ensures TrimStart(s) == if SpaceAt(s) == 0 then s else TrimStart(s[SpaceAt(s)..])
  {
  }

  lemma {:induction false} TrimStartSplits(s: seq<byte>) returns (lead: seq<byte>)
    ensures Spaces(lead) && s == lead + TrimStart(s)
    decreases |s|
  {
    hide SpaceAt, TrimStart, Spaces;
    TrimStartStep(s);
    lead := [];
    NoSpaces();
    if SpaceAt(s) > 0 {
      var k := SpaceAt(s);
      var more := TrimStartSplits(s[k..]);
      SpaceAtFirst(s);
      SpacesCons(s[..k], more);
      Rejoin(s, k, more, TrimStart(s));
      lead := s[..k] + more;
    }
  }

  lemma NoSpaces()
    ensures Spaces([])
  {
  }

  lemma Rejoin(s: seq<byte>, k: nat, more: seq<byte>, rest: seq<byte>)
    requires k <= |s| && s[k..] == more + rest
    ensures s == s[..k] + more + rest
  {
    assert s == s[..k] + s[k..];
  }

  lemma SpaceEndLast(s: seq<byte>)
    requires SpaceEnd(s) > 0
    ensures SpaceEnd(s[|s| - SpaceEnd(s)..]) == SpaceEnd(s)
  {
  }

  lemma {:induction false} TrimEndStep(s: seq<byte>)
    ensures TrimEnd(s) == if SpaceEnd(s) == 0 then s else TrimEnd(s[..|s| - SpaceEnd(s)])
  {
  }

  lemma {:induction false} TrimEndSplits(s: seq<byte>, trail: seq<byte>) returns (all: seq<byte>)
    requires Spaces(trail)
    ensures Spaces(all) && s + trail == TrimEnd(s) + all
    decreases |s|
  {
    hide SpaceAt, SpaceEnd, TrimEnd, Spaces;
    TrimEndStep(s);
    all := trail;
    if SpaceEnd(s) > 0 {
      var k := |s| - SpaceEnd(s);
      SpaceEndLast(s);
      SpaceAtIsSpaceEnd(s[k..]);
      SpacesCons(s[k..], trail);
      all := TrimEndSplits(s[..k], s[k..] + trail);
      assert s + trail == s[..k] + (s[k..] + trail);
    }
  }

  lemma SpaceIsNoSemicolon(s: seq<byte>)
    requires SpaceAt(s) > 0
    ensures forall i :: 0 <= i < SpaceAt(s) ==> s[i] != SEMICOLON
  {
  }

  lemma {:induction false} SpacesHaveNoSemicolon(s: seq<byte>)
    requires Spaces(s)
    ensures forall i :: 0 <= i < |s| ==> s[i] != SEMICOLON
    decreases |s|
  {
    hide SpaceAt;
    if s != [] {
      var k := SpaceAt(s);
      SpaceIsNoSemicolon(s);
      SpacesHaveNoSemicolon(s[k..]);
      forall i | k <= i < |s| ensures s[i] != SEMICOLON {
        assert s[i] == s[k..][i - k];
      }
    }
  }

  lemma NoSemicolonInSpaces(s: seq<byte>, extension: seq<byte>)
    requires Spaces(s)
    ensures BeforeSemicolon(s + extension) == s + BeforeSemicolon(extension)
  {
    hide Spaces, BeforeSemicolon;
    SpacesHaveNoSemicolon(s);
    SemicolonFree(s, extension);
  }

  lemma {:induction false} SemicolonFree(s: seq<byte>, more: seq<byte>)
    requires forall i :: 0 <= i < |s| ==> s[i] != SEMICOLON
    ensures BeforeSemicolon(s + more) == s + BeforeSemicolon(more)
  {
    if s == [] {
      assert s + more == more;
    } else {
      assert (s + more)[1..] == s[1..] + more;
      SemicolonFree(s[1..], more);
    }
  }

  /** What stands before the extension of a size line. */
  lemma BeforeExtensionOf(l: SizeLine, n: nat)
    requires HexLineOf(l, n)
    ensures BeforeSemicolon(Text(l)) == l.lead + (Core(l) + l.trail)
  {
    assert Text(l) == l.lead + (Core(l) + (l.trail + l.extension));
    NoSemicolonInSpaces(l.lead, Core(l) + (l.trail + l.extension));
    assert forall i :: 0 <= i < |l.digits| ==> IsHexDigit(l.digits[i]);
    SemicolonFree(Core(l), l.trail + l.extension);
    NoSemicolonInSpaces(l.trail, l.extension);
    assert l.trail + [] == l.trail;
  }

  lemma CoreIsTrimmed(l: SizeLine, n: nat)
    requires HexLineOf(l, n)
    ensures SpaceEnd(Core(l)) == 0 && SpaceAt(Core(l) + l.trail) == 0
  {
    assert IsHexDigit(l.digits[0]) && IsHexDigit(l.digits[|l.digits| - 1]);
  }

  lemma SizeLineParses(l: SizeLine, n: nat)
    requires HexLineOf(l, n)
    ensures ParseChunkSize(Text(l)) == Some(n)
  {
    hide Spaces, TrimStart, TrimEnd, BeforeSemicolon, Text, HexValue;
    var core := Core(l);
    BeforeExtensionOf(l, n);
    CoreIsTrimmed(l, n);
    TrimStartDrops(l.lead, core + l.trail);
    TrimEndDrops(core, l.trail);
    assert IsHexDigit(l.digits[0]);
    if l.plus == [] {
      assert core == l.digits;
    } else {
      assert core[1..] == l.digits;
    }
  }

  lemma {:induction false} ExtensionBehind(line: seq<byte>) returns (extension: seq<byte>)
    ensures line == BeforeSemicolon(line) + extension
    ensures extension == [] || extension[0] == SEMICOLON
  {
    extension := line;
    if line != [] && line[0] != SEMICOLON {
      extension := ExtensionBehind(line[1..]);
    }
  }

  lemma ParsedIsSizeLine(line: seq<byte>) returns (l: SizeLine)
    requires ParseChunkSize(line).Some?
    ensures Text(l) == line && SizeLineOf(l, ParseChunkSize(line).value)
  {
    hide Spaces, TrimStart, TrimEnd, BeforeSemicolon, SizeLineOf, Spells, AllHex, HexValue;
    var extension := ExtensionBehind(line);
    var before := BeforeSemicolon(line);
    var lead := TrimStartSplits(before);
    var trimmed := TrimEnd(TrimStart(before));
    NoSpaces();
    var trail := TrimEndSplits(TrimStart(before), []);
    assert TrimStart(before) + [] == TrimStart(before);
    var plus: seq<byte> := if trimmed[0] == 43 then [43] else [];
    var values := SpellsItself(trimmed[|plus|..]);
    l := SizeLine(lead, plus, trimmed[|plus|..], values, trail, extension);
    assert trimmed == plus + l.digits;
    HexLineIsSizeLine(l, ParseChunkSize(line).value);
  }

  /** The lines the size parser accepts, all of them: white space, an optional sign,
      hexadecimal digits of a value below 2^64, white space, and an extension. */
  lemma ParseIff(line: seq<byte>, n: nat)
    ensures ParseChunkSize(line) == Some(n) <==> exists l :: SizeLineOf(l, n) && Text(l) == line
  {
    if ParseChunkSize(line) == Some(n) {
      var l := ParsedIsSizeLine(line);
    }
    if exists l :: SizeLineOf(l, n) && Text(l) == line {
      var l :| SizeLineOf(l, n) && Text(l) == line;
      SizeLineIsHexLine(l, n);
      SizeLineParses(l, n);
    }
  }

  /** Digits, and right behind them an extension or the end of the line. */
  predicate Plain(digits: seq<byte>, extension: seq<byte>) {
    digits != [] && AllHex(digits) && (extension == [] || extension[0] == SEMICOLON)
  }

  /** However an accepted line is looked at, it is plain exactly when it has neither a
      sign nor white space before its extension. */
  lemma PlainIff(l: SizeLine, n: nat)
    requires SizeLineOf(l, n)
    ensures (exists digits, extension :: Plain(digits, extension) && Text(l) == digits + extension)
      <==> l.lead == [] && l.plus == [] && l.trail == []
  {
    SizeLineIsHexLine(l, n);
    if l.lead == [] && l.plus == [] && l.trail == [] {
      assert Plain(l.digits, l.extension) && Text(l) == l.digits + l.extension;
    }
    if exists digits, extension :: Plain(digits, extension) && Text(l) == digits + extension {
      var digits, extension :| Plain(digits, extension) && Text(l) == digits + extension;
      BeforeExtension(digits, extension);
      BeforeExtensionOf(l, n);
      HexIsNotSpaces(l, digits);
    }
  }

  lemma HexIsNotSpaces(l: SizeLine, digits: seq<byte>)
    requires Spaces(l.lead) && (l.plus == [] || l.plus == [43]) && Spaces(l.trail) && l.digits != []
    requires AllHex(digits) && digits == l.lead + (Core(l) + l.trail)
    ensures l.lead == [] && l.plus == [] && l.trail == []
  {
    AllHexParts(l.lead, Core(l) + l.trail);
    AllHexParts(Core(l), l.trail);
    AllHexParts(l.plus, l.digits);
    HexIsNoSpace(l.lead);
    HexIsNoSpace(l.trail);
    assert l.plus == [43] ==> IsHexDigit(l.plus[0]);
  }

  lemma AllHexParts(a: seq<byte>, b: seq<byte>)
    requires AllHex(a + b)
    ensures AllHex(a) && AllHex(b)
  {
    forall i | 0 <= i < |b| ensures IsHexDigit(b[i]) {
      assert (a + b)[|a| + i] == b[i];
    }
    forall i | 0 <= i < |a| ensures IsHexDigit(a[i]) {
      assert (a + b)[i] == a[i];
    }
  }

  lemma HexIsNoSpace(s: seq<byte>)
    requires AllHex(s) && Spaces(s)
    ensures s == []
  {
    assert s != [] ==> IsHexDigit(s[0]);
  }

  /** A sign is let through, and so is white space. */
  lemma ParseBeyondGrammar()
    ensures ParseChunkSize([43, 53]) == Some(5) && ParseChunkSize([32, 53, 9]) == Some(5)
    ensures !exists digits, extension :: Plain(digits, extension) && [43, 53] == digits + extension
    ensures !exists digits, extension :: Plain(digits, extension) && [32, 53, 9] == digits + extension
  {
    hide TrimStart, TrimEnd, BeforeSemicolon, ParseChunkSize, Plain;
    var signed, spaced := SizeLine([], [43], [53], [5], [], []), SizeLine([32], [], [53], [5], [9], []);
    assert [53][..0] == [] && HexValue([53]) == 5;
    assert Text(signed) == [43, 53] && Text(spaced) == [32, 53, 9];
    assert [32][1..] == [] && [9][1..] == [] && Spaces([32]) && Spaces([9]);
    assert Ascii("+") == [43] && Positional([5]) == 5 * Pow16(0) + Positional([]);
    SizeLineParses(signed, 5);
    SizeLineParses(spaced, 5);
    PlainIff(signed, 5);
    PlainIff(spaced, 5);
  }

  /** How a plain client frames a list of payloads. */
  function PlainBody(payloads: seq<seq<byte>>): Body {
    Body(seq(|payloads|, i requires 0 <= i < |payloads| => Chunk(Hex(|payloads[i]|), payloads[i])), [48], [])
  }

  lemma HexIsGoodLine(n: nat)
    requires n < U64_LIMIT
    ensures GoodLine(Hex(n), MAX_SIZE_LINE_BYTES) && ParseChunkSize(Hex(n)) == Some(n)
  {
    HexIsHex(n);
    assert Pow16(4) == 0x1_0000;
    assert Pow16(8) == 0x1_0000_0000;
    assert Pow16(12) == 0x1_0000_0000_0000;
    assert Pow16(16) == U64_LIMIT;
    HexLength(n, 16);
    var values := SpellsItself(Hex(n));
    HexValueIs(Hex(n), values);
    ParseHexLine(Hex(n), values, []);
    assert Hex(n) + [] == Hex(n);
  }

  lemma PlainBodyIsWellFormed(payloads: seq<seq<byte>>)
    requires forall i :: 0 <= i < |payloads| ==> 0 < |payloads[i]| < U64_LIMIT
    ensures WellFormed(PlainBody(payloads))
  {
    forall i | 0 <= i < |payloads| ensures GoodChunk(PlainBody(payloads).chunks[i]) {
      HexIsGoodLine(|payloads[i]|);
    }
    HexIsGoodLine(0);
  }

  // ── End to end ────────────────────────────────────────────────────────────

  /** A caller that polls with buffers of the given sizes, keeps what it gets, and
      stops at the end of the stream or at an error; `poll` is its last answer. With
      room in every buffer, a poll that does not stop it brings a byte, or the inner
      reader was not ready. */
  method ReadAll(decoder: ChunkedDecoder, rooms: seq<nat>) returns (out: seq<byte>, ended: bool, poll: Poll)
    requires decoder.Valid()
    modifies decoder, decoder.inner
    ensures decoder.Valid()
    ensures decoder.Went(old(decoder.Current()), old(decoder.inner.pos), out, poll)
    ensures decoder.Reason(old(decoder.Current()), old(decoder.inner.pos), poll)
    ensures ended ==> poll.Ready? && Settled(decoder.Current())
    ensures LeftOf(old(decoder.inner.script), decoder.inner.script)
    ensures poll == Failed(InnerError) ==> Fails in old(decoder.inner.script)
    ensures !ended && !poll.Failed? && (forall r :: r in rooms ==> r > 0) ==>
      |rooms| <= |out| + multiset(Used(old(decoder.inner.script), decoder.inner.script))[NotReady]
  {
    hide Decode;
    out, ended, poll := [], false, Ready;
    ghost var c, start, was := decoder.Current(), decoder.inner.pos, decoder.inner.script;
    MovesNowhere(c, decoder.inner.data, start);
    ToldNothing(was);
    for i := 0 to |rooms|
      invariant decoder.Valid() && start <= decoder.inner.pos
      invariant Moves(c, decoder.inner.data[start..decoder.inner.pos], out, decoder.Current())
      invariant decoder.state.Errored? <==> c.state.Errored?
      invariant LeftOf(was, decoder.inner.script) && !poll.Failed?
      invariant (forall r :: r in rooms ==> r > 0) ==>
        i <= |out| + multiset(Used(was, decoder.inner.script))[NotReady]
    {
      ghost var at, mid, d := decoder.inner.pos, decoder.inner.script, decoder.Current();
      var got;
      poll, got := decoder.PollRead(rooms[i]);
      decoder.WentOn(c, start, at, out, d, got, poll);
      UsedThen(was, mid, decoder.inner.script);
      assert Used(was, decoder.inner.script) == Used(was, mid) + Used(mid, decoder.inner.script);
      assert poll.Pending? ==> NotReady in multiset(Used(mid, decoder.inner.script));
      assert rooms[i] in rooms;
      if poll.Failed? {
        if poll.why.InnerError? { UsedIn(was, decoder.inner.script, Fails); }
        assert out + [] == out;
        return;
      }
      out := out + got;
      if poll.Ready? && got == [] && rooms[i] > 0 {
        ended := true;
        return;
      }
    }
  }

  /** An inner reader that never fails is polled with room in every buffer, once more
      than there are bytes to come, not counting the polls for which it is not ready. */
  predicate EnoughPolls(script: seq<Answer>, rooms: seq<nat>, bytes: nat) {
    Fails !in script && (forall r :: r in rooms ==> r > 0) && |rooms| > bytes + multiset(script)[NotReady]
  }

  /** A fresh decoder over `input`, read with the given buffer sizes, against what
      decoding the whole input gives. */
  method ReadInput(input: seq<byte>, script: seq<Answer>, rooms: seq<nat>)
    returns (out: seq<byte>, ended: bool, poll: Poll, consumed: nat)
    ensures var whole := Decode(INITIAL, input);
      && out <= whole.output && consumed <= |input|
      && (ended ==> poll.Ready? && whole == Outcome(out, Config(Done, []), consumed))
      && (poll == Failed(InvalidData) ==> whole.last.state.Errored?)
      && (poll == Failed(UnexpectedEof) ==> !Settled(whole.last))
    ensures poll == Failed(InnerError) ==> Fails in script
    ensures EnoughPolls(script, rooms, |Decode(INITIAL, input).output|) ==> ended || poll.Failed?
  {
    var inner := new Inner(input, script);
    var decoder := new ChunkedDecoder(inner);
    out, ended, poll := ReadAll(decoder, rooms);
    consumed := inner.pos;
    WholeFrom(input, consumed);
    ghost var used := Used(script, inner.script);
    assert script == used + inner.script;
  }

  /** Decoding the whole input from where decoding a part of it stopped. */
  lemma WholeFrom(input: seq<byte>, pos: nat)
    requires pos <= |input|
    ensures var part := Decode(INITIAL, input[..pos]);
      part.consumed == pos ==> Decode(INITIAL, input) == After(part.output, pos, Decode(part.last, input[pos..]))
  {
    hide Decode;
    if Decode(INITIAL, input[..pos]).consumed == pos {
      DecodeOn(INITIAL, input[..pos], input[pos..]);
      assert input[..pos] + input[pos..] == input;
    }
  }

  /** For any encoded body followed by anything, any inner read sizes and any buffer
      sizes: the caller sees a prefix of the payloads, no error but the inner reader's
      own, and at the end of the stream all of the payloads, with the reader left right
      behind the final CRLF. It gets to the end in one more poll than there are payload
      bytes, not counting those for which the inner reader was not ready. */
  method ReadEncoded(ghost b: Body, ghost rest: seq<byte>, input: seq<byte>, script: seq<Answer>, rooms: seq<nat>)
    returns (out: seq<byte>, ended: bool, poll: Poll, consumed: nat)
    requires WellFormed(b) && input == Encode(b) + rest
    ensures out <= Payloads(b.chunks)
    ensures ended ==> out == Payloads(b.chunks) && consumed == |Encode(b)|
    ensures poll.Failed? ==> poll.why.InnerError? && Fails in script
    ensures EnoughPolls(script, rooms, |Payloads(b.chunks)|) ==> ended
  {
    hide Decode, Encode, WellFormed, Payloads;
    DecodeInvertsEncode(b, rest);
    out, ended, poll, consumed := ReadInput(input, script, rooms);
  }

  /** For any input whatever: a stream that ends without an error was a
      well-formed body, and its payloads were delivered. */
  method ReadArbitrary(input: seq<byte>, script: seq<Answer>, rooms: seq<nat>)
    returns (out: seq<byte>, ended: bool, consumed: nat)
    ensures ended ==>
      exists b, rest ::
        WellFormed(b) && input == Encode(b) + rest && out == Payloads(b.chunks) && consumed == |Encode(b)|
    ensures EnoughPolls(script, rooms, |input|) ==> (ended <==> Decode(INITIAL, input).last.state.Done?)
  {
    var poll;
    out, ended, poll, consumed := ReadInput(input, script, rooms);
    OutputFits(INITIAL, input);
    assert poll.Failed? ==> poll.why.InnerError? || poll.why.UnexpectedEof? || poll.why.InvalidData?;
    if ended {
      ghost var b, rest := SplitBody(input);
      DecodeInvertsEncode(b, rest);
    }
  }

  /** Decoding hands out no more bytes than it reads. */
  lemma {:induction false} OutputFits(c: Config, input: seq<byte>)
    ensures |Decode(c, input).output| <= |input|
    decreases |input|
  {
    if !Settled(c) && input != [] {
      OutputFits(Step(c, input[0]).0, input[1..]);
    }
  }

  // ── Reading after an error ────────────────────────────────────────────────

  /** How a fresh decoder stops when its inner reader never fails. */
  function Verdict(end: State): Poll {
    match end
    case Done => Ready
    case Errored => Failed(InvalidData)
    case _ => Failed(UnexpectedEof)
  }

  /** What reading a fresh decoder to its end comes to. */
  lemma AfterAll(
    decoder: ChunkedDecoder, script: seq<Answer>, rooms: seq<nat>, out: seq<byte>, ended: bool, poll: Poll)
    requires decoder.Went(INITIAL, 0, out, poll) && decoder.Reason(INITIAL, 0, poll)
    requires ended ==> poll.Ready? && Settled(decoder.Current())
    requires LeftOf(script, decoder.inner.script) && (poll == Failed(InnerError) ==> Fails in script)
    requires !ended && !poll.Failed? && (forall r :: r in rooms ==> r > 0) ==>
      |rooms| <= |out| + multiset(Used(script, decoder.inner.script))[NotReady]
    ensures EnoughPolls(script, rooms, |Decode(INITIAL, decoder.inner.data).output|) ==>
      poll == Verdict(Decode(INITIAL, decoder.inner.data).last.state)
  {
    hide Decode;
    var input, pos := decoder.inner.data, decoder.inner.pos;
    assert input[0..pos] == input[..pos];
    WholeFrom(input, pos);
    if Settled(decoder.Current()) { SettledStays(decoder.Current(), input[pos..]); }
    if pos == |input| { assert input[..pos] == input; }
    assert script == Used(script, decoder.inner.script) + decoder.inner.script;
    assert poll.Failed? ==> poll.why.InnerError? || poll.why.UnexpectedEof? || poll.why.InvalidData?;
  }

  /** The answers that ended a call were in the script. */
  lemma ToldOf(script: seq<Answer>, left: seq<Answer>, now: seq<Answer>, poll: Poll, brought: nat)
    requires LeftOf(script, left) && Told(left, now, poll, brought)
    ensures (poll.Pending? ==> NotReady in script) && (poll == Failed(InnerError) ==> Fails in script)
  {
    if poll.Pending? { UsedIn(left, now, NotReady); }
    if poll == Failed(InnerError) { UsedIn(left, now, Fails); }
  }

  /** One more read of a decoder whose last one failed in a header line. */
  lemma PastError(
    decoder: ChunkedDecoder, at: nat, out: seq<byte>, d: Config, more: seq<byte>, poll: Poll)
    requires at <= decoder.inner.pos <= |decoder.inner.data| && Moves(INITIAL, decoder.inner.data[0..at], out, d)
    requires InLine(d) && decoder.Went(d, at, more, poll) && decoder.Reason(d, at, poll)
    requires poll.Ready? && more == [] ==> Settled(decoder.Current())
    ensures var whole := Decode(INITIAL, decoder.inner.data);
      out + more <= whole.output && (poll.Ready? && more == [] ==> whole.last.state.Done? && whole.output == out)
  {
    hide Decode;
    var input, pos := decoder.inner.data, decoder.inner.pos;
    decoder.WentOn(INITIAL, 0, at, out, d, more, poll);
    assert input[0..pos] == input[..pos];
    WholeFrom(input, pos);
    if Settled(decoder.Current()) { SettledStays(decoder.Current(), input[pos..]); }
    assert out + [] == out;
  }

  /** A fresh decoder is read until it fails, and then once more. The failure found the
      decoder at `Decode(INITIAL, input[..consumed]).last`. The next read reports the end
      of the stream exactly when that is not in a header line; in one, reading goes on as
      if nothing had happened, and fails once more when it was the input that ended. */
  method ReadPastError(input: seq<byte>, script: seq<Answer>, rooms: seq<nat>, room: nat)
    returns (out: seq<byte>, failed: Poll, consumed: nat, next: Poll, more: seq<byte>)
    requires room > 0
    ensures consumed <= |input|
    ensures var found := Decode(INITIAL, input[..consumed]).last;
      && (failed == Failed(InvalidData) ==> found.state.Errored?)
      && (failed == Failed(UnexpectedEof) ==> consumed == |input|)
      && (failed.Failed? && !failed.why.InnerError? ==> (next.Ready? && more == [] <==> !InLine(found)))
      && (failed == Failed(UnexpectedEof) ==> (next.Ready? <==> !InLine(found)))
      && (failed == Failed(InnerError) && !InLine(found) ==> next.Ready? && more == [])
    ensures EnoughPolls(script, rooms, |Decode(INITIAL, input).output|) ==>
      failed == Verdict(Decode(INITIAL, input).last.state)
    ensures (next.Pending? ==> NotReady in script) && (next == Failed(InnerError) ==> Fails in script)
    ensures failed.Failed? && InLine(Decode(INITIAL, input[..consumed]).last) ==>
      out + more <= Decode(INITIAL, input).output
      && (next.Ready? && more == [] ==> Decode(INITIAL, input).last.state.Done? && Decode(INITIAL, input).output == out)
  {
    hide Decode, EnoughPolls, Verdict, Told, LeftOf, Used;
    var inner := new Inner(input, script);
    var decoder := new ChunkedDecoder(inner);
    var ended;
    out, ended, failed := ReadAll(decoder, rooms);
    consumed := inner.pos;
    AfterAll(decoder, script, rooms, out, ended, failed);
    ghost var left, d := inner.script, decoder.Current();
    assert input[0..consumed] == input[..consumed];
    if consumed == |input| { assert input[..consumed] == input; }
    next, more := decoder.PollRead(room);
    ToldOf(script, left, inner.script, next, inner.pos - consumed);
    if failed.Failed? && InLine(Decode(INITIAL, input[..consumed]).last) {
      PastError(decoder, consumed, out, d, more, next);
    }
  }

  /** The input ends inside a chunk-size line: one read fails, and so does the next. */
  method EndInsideSizeLine() returns (first: Poll, second: Poll)
    ensures first == second == Failed(UnexpectedEof)
  {
    var inner := new Inner([53], []);
    var decoder := new ChunkedDecoder(inner);
    LineConfigs();
    var out, more;
    first, out := decoder.PollRead(1);
    assert inner.pos == 0 || inner.data[0..inner.pos] == [53];
    second, more := decoder.PollRead(1);
  }

  lemma LineConfigs()
    ensures Decode(INITIAL, []).last == INITIAL
    ensures Decode(INITIAL, [53]) == Outcome([], Config(NextSize, [53]), 1)
  {
  }
}
