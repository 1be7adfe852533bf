/** HTTP/1.1 chunked transfer decoding (section 7.1 of RFC 9112), first as a
    function of the bytes, one at a time. */
module ChunkedSpec {
  import opened Bytes
  import opened Wrappers

  const CR: byte := 13
  const LF: byte := 10
  const CRLF: seq<byte> := [CR, LF]
  const SEMICOLON: byte := 59
  const MAX_SIZE_LINE_BYTES := 64
  const MAX_TRAILER_BYTES := 4096
  const U64_LIMIT := 0x1_0000_0000_0000_0000

  datatype State =
    | NextSize
    | Payload(remaining: nat)
    | AfterPayload(seen: nat)
    | Trailers
    | Done
    | Errored

  // ── Chunk-size lines ──────────────────────────────────────────────────────

  /** Length in bytes of the Unicode white-space character `s` starts with, 0 if none. */
  function SpaceAt(s: seq<byte>): (n: nat)
    ensures n <= |s|
  {
    if |s| >= 1 && (9 <= s[0] <= 13 || s[0] == 32) then 1
    else if |s| >= 2 && s[0] == 0xC2 && (s[1] == 0x85 || s[1] == 0xA0) then 2
    else if |s| >= 3 && IsWideSpace(s[0], s[1], s[2]) then 3
    else 0
  }

  /** Length of the white-space character `s` ends with, 0 if none. */
  function SpaceEnd(s: seq<byte>): (n: nat)
    ensures n <= |s|
  {
    var k := |s|;
    if k >= 1 && (9 <= s[k - 1] <= 13 || s[k - 1] == 32) then 1
    else if k >= 2 && s[k - 2] == 0xC2 && (s[k - 1] == 0x85 || s[k - 1] == 0xA0) then 2
    else if k >= 3 && IsWideSpace(s[k - 3], s[k - 2], s[k - 1]) then 3
    else 0
  }

  predicate IsWideSpace(a: byte, b: byte, c: byte) {
    || (a == 0xE1 && b == 0x9A && c == 0x80)
    || (a == 0xE2 && b == 0x80 && (0x80 <= c <= 0x8A || c == 0xA8 || c == 0xA9 || c == 0xAF))
    || (a == 0xE2 && b == 0x81 && c == 0x9F)
    || (a == 0xE3 && b == 0x80 && c == 0x80)
  }

  function TrimStart(s: seq<byte>): seq<byte>
    decreases |s|
  {
    if SpaceAt(s) == 0 then s else TrimStart(s[SpaceAt(s)..])
  }

  function TrimEnd(s: seq<byte>): seq<byte>
    decreases |s|
  {
    if SpaceEnd(s) == 0 then s else TrimEnd(s[..|s| - SpaceEnd(s)])
  }

  predicate IsHexDigit(b: byte) {
    48 <= b <= 57 || 65 <= b <= 70 || 97 <= b <= 102
  }

  function DigitValue(b: byte): (v: nat)
    requires IsHexDigit(b)
    ensures v < 16
  {
    if b <= 57 then b - 48 else if b <= 70 then b - 55 else b - 87
  }

  predicate AllHex(s: seq<byte>) {
    forall i :: 0 <= i < |s| ==> IsHexDigit(s[i])
  }

  function HexValue(s: seq<byte>): nat
    requires AllHex(s)
  {
    if s == [] then 0 else 16 * HexValue(s[..|s| - 1]) + DigitValue(s[|s| - 1])
  }

  /** Everything before the first `;`. */
  function BeforeSemicolon(s: seq<byte>): seq<byte> {
    if s == [] || s[0] == SEMICOLON then [] else [s[0]] + BeforeSemicolon(s[1..])
  }

  /** White space is trimmed and one leading `+` is let through, as
      `u64::from_str_radix` does; bytes that are not UTF-8 are not digits either. */
  function ParseChunkSize(line: seq<byte>): Option<nat> {
    var trimmed := TrimEnd(TrimStart(BeforeSemicolon(line)));
    var digits := if trimmed != [] && trimmed[0] == 43 then trimmed[1..] else trimmed;
    if digits != [] && AllHex(digits) && HexValue(digits) < U64_LIMIT then Some(HexValue(digits)) else None
  }

  // ── The decoder, byte by byte ─────────────────────────────────────────────

  /** `scratch` is the part of a header line read so far. */
  datatype Config = Config(state: State, scratch: seq<byte>)

  const INITIAL := Config(NextSize, [])

  function LineLimit(state: State): nat {
    if state.NextSize? then MAX_SIZE_LINE_BYTES else MAX_TRAILER_BYTES
  }

  predicate EndsLine(scratch: seq<byte>) {
    |scratch| >= 2 && scratch[|scratch| - 2] == CR && scratch[|scratch| - 1] == LF
  }

  predicate CrlfAt(s: seq<byte>, i: nat) {
    i + 1 < |s| && s[i] == CR && s[i + 1] == LF
  }

  ghost predicate HasCrlf(s: seq<byte>) {
    exists i :: CrlfAt(s, i)
  }

  predicate Settled(c: Config) {
    c.state.Done? || c.state.Errored?
  }

  /** What a complete line, stripped of its CRLF, does. */
  function AfterLine(state: State, line: seq<byte>): State {
    if state.NextSize? then
      match ParseChunkSize(line)
      case None => Errored
      case Some(n) => if n == 0 then Trailers else Payload(n)
    else if line == [] then Done else Trailers
  }

  /** Where a header line stands once `scratch` has been read. */
  function LineConfig(state: State, scratch: seq<byte>): Config {
    if EndsLine(scratch) then Config(AfterLine(state, scratch[..|scratch| - 2]), [])
    else if |scratch| >= LineLimit(state) then Config(Errored, scratch)
    else Config(state, scratch)
  }

  /** A payload that has been read to its end waits for its CRLF. */
  function AfterBytes(remaining: nat): State {
    if remaining == 0 then AfterPayload(0) else Payload(remaining)
  }

  /** Consume one byte; the second result is what it adds to the output. */
  function Step(c: Config, b: byte): (Config, seq<byte>) {
    match c.state
    case NextSize => (LineConfig(NextSize, c.scratch + [b]), [])
    case Payload(remaining) => (Config(AfterBytes(if remaining == 0 then 0 else remaining - 1), []), [b])
    case AfterPayload(seen) =>
      var want := if seen == 0 then CR else LF;
      (Config(if b != want then Errored else if seen == 0 then AfterPayload(1) else NextSize, []), [])
    case Trailers => (LineConfig(Trailers, c.scratch + [b]), [])
    case Done => (c, [])
    case Errored => (c, [])
  }

  /** Decoding of a whole input: the output, where decoding stopped and how many
      bytes it consumed. It stops when settled or out of input. */
  datatype Outcome = Outcome(output: seq<byte>, last: Config, consumed: nat)

  function Decode(c: Config, input: seq<byte>): (r: Outcome)
    ensures r.consumed <= |input|
    ensures Settled(r.last) || r.consumed == |input|
    decreases |input|
  {
    if Settled(c) || input == [] then Outcome([], c, 0)
    else
      var (next, out) := Step(c, input[0]);
      After(out, 1, Decode(next, input[1..]))
  }

  /** `n` bytes consumed and `out` produced before `rest`. */
  function After(out: seq<byte>, n: nat, rest: Outcome): Outcome {
    Outcome(out + rest.output, rest.last, n + rest.consumed)
  }

  lemma AfterAfter(a: seq<byte>, m: nat, b: seq<byte>, n: nat, r: Outcome)
    ensures After(a, m, After(b, n, r)) == After(a + b, m + n, r)
  {
    assert a + (b + r.output) == a + b + r.output;
  }

  lemma AfterNothing(r: Outcome)
    ensures After([], 0, r) == r
  {
    assert [] + r.output == r.output;
  }

  // ── Reading on ────────────────────────────────────────────────────────────

  /** Reading `bytes`, all of them, takes the decoder from `c` to `d` and hands out `out`. */
  predicate Moves(c: Config, bytes: seq<byte>, out: seq<byte>, d: Config) {
    Decode(c, bytes) == Outcome(out, d, |bytes|)
  }

  /** Bytes read in two pieces decode as they do in one. */
  lemma {:induction false} DecodeOn(c: Config, a: seq<byte>, b: seq<byte>)
    requires Decode(c, a).consumed == |a|
    ensures Decode(c, a + b) == After(Decode(c, a).output, |a|, Decode(Decode(c, a).last, b))
    decreases |a|
  {
    if a == [] {
      assert [] + b == b;
      AfterNothing(Decode(c, b));
    } else {
      var (next, out) := Step(c, a[0]);
      assert (a + b)[1..] == a[1..] + b;
      DecodeOn(next, a[1..], b);
      var more := Decode(next, a[1..]);
      AfterAfter(out, 1, more.output, |a| - 1, Decode(more.last, b));
    }
  }

  lemma SettledStays(c: Config, input: seq<byte>)
    requires Settled(c)
    ensures Decode(c, input) == Outcome([], c, 0)
  {
  }

  lemma MovesNowhere(c: Config, data: seq<byte>, at: nat)
    requires at <= |data|
    ensures Moves(c, data[at..at], [], c)
  {
  }

  lemma MovesOn(c: Config, a: seq<byte>, out: seq<byte>, d: Config, b: seq<byte>, more: seq<byte>, e: Config)
    requires Moves(c, a, out, d) && Moves(d, b, more, e)
    ensures Moves(c, a + b, out + more, e)
  {
    DecodeOn(c, a, b);
  }

  /** One byte of the CRLF behind a payload. */
  lemma CrlfPush(seen: nat, b: byte)
    requires seen <= 1
    ensures var want := if seen == 0 then CR else LF;
      var state := if b != want then Errored else if seen == 0 then AfterPayload(1) else NextSize;
      Moves(Config(AfterPayload(seen), []), [b], [], Config(state, []))
  {
    assert [b][1..] == [];
  }

  /** One more byte of a header line. */
  lemma LinePush(state: State, scratch: seq<byte>, b: byte)
    requires state.NextSize? || state.Trailers?
    requires !HasCrlf(scratch) && |scratch| < LineLimit(state)
    ensures Moves(LineConfig(state, scratch), [b], [], LineConfig(state, scratch + [b]))
  {
    assert !EndsLine(scratch) by {
      if EndsLine(scratch) { assert CrlfAt(scratch, |scratch| - 2); }
    }
    assert [b][1..] == [];
  }

  /** Payload bytes may be taken in pieces of any size. */
  lemma {:induction false} DecodePayload(remaining: nat, input: seq<byte>, n: nat)
    requires n <= remaining && n <= |input| && remaining > 0
    ensures Decode(Config(Payload(remaining), []), input)
         == After(input[..n], n, Decode(Config(AfterBytes(remaining - n), []), input[n..]))
    decreases n
  {
    hide LineConfig;
    if n == 0 {
      AfterNothing(Decode(Config(Payload(remaining), []), input));
      assert input[0..] == input && input[..0] == [];
    } else if n == 1 {
      assert input[..1] == [input[0]];
    } else {
      DecodePayload(remaining - 1, input[1..], n - 1);
      assert input[1..][n - 1..] == input[n..];
      assert [input[0]] + input[1..][..n - 1] == input[..n];
      AfterAfter([input[0]], 1, input[1..][..n - 1], n - 1, Decode(Config(AfterBytes(remaining - n), []), input[n..]));
    }
  }
}

/** The decoder object of the source, reading from a byte source that may hand
    out any number of bytes, be pending or fail at every poll. */
module Chunked {
  import opened Bytes
  import opened Wrappers
  import opened Scripts
  import opened ChunkedSpec

  datatype Why = InnerError | UnexpectedEof | InvalidData

  datatype Poll = Pending | Ready | Failed(why: Why)

  /** What the inner reader answers to one poll: up to `n` bytes, but at least one. */
  datatype Answer = NotReady | Fails | Gives(n: nat)

  /** The inner reader: `data[pos..]` is still to come, in the pieces that `script`
      says. With nothing left in the script it fills every buffer. */
  class Inner {
    const data: seq<byte>
    var pos: nat
    var script: seq<Answer>

    constructor (input: seq<byte>, answers: seq<Answer>)
      ensures data == input && pos == 0 && script == answers
    {
      data, pos, script := input, 0, answers;
    }

    ghost predicate Valid()
      reads this
    {
      pos <= |data|
    }

    /** One poll into a buffer of `room` bytes. A ready poll with no bytes is end of file. */
    method PollRead(room: nat) returns (poll: Poll, got: seq<byte>)
      requires Valid() && room > 0
      modifies this
      ensures Valid() && old(pos) <= pos && got == data[old(pos)..pos] && |got| <= room
      ensures script == Tail(old(script))
      ensures poll.Pending? <==> old(script) != [] && old(script)[0].NotReady?
      ensures poll.Failed? <==> old(script) != [] && old(script)[0].Fails?
      ensures poll.Failed? ==> poll.why.InnerError?
      ensures got == [] <==> !poll.Ready? || pos == old(pos) == |data|
    {
      got := [];
      var answer := if script == [] then Gives(room) else script[0];
      script := Tail(script);
      match answer
      case NotReady => poll := Pending;
      case Fails => poll := Failed(InnerError);
      case Gives(n) =>
        poll := Ready;
        var k := Least(if n == 0 then 1 else n, Least(room, |data| - pos));
        got := data[pos..pos + k];
        pos := pos + k;
    }
  }

  function Least(a: nat, b: nat): nat { if a <= b then a else b }

  /** What the inner reader answered while `brought` bytes were read: data, at least a
      byte each, until an answer that ended the call. */
  ghost predicate Told(was: seq<Answer>, now: seq<Answer>, poll: Poll, brought: nat) {
    && LeftOf(was, now)
    && (poll.Pending? <==> NotReady in Used(was, now))
    && (poll == Failed(InnerError) <==> Fails in Used(was, now))
    && |Used(was, now)| <= brought + (if poll.Ready? then 0 else 1)
  }

  lemma ToldThen(was: seq<Answer>, mid: seq<Answer>, m: nat, now: seq<Answer>, poll: Poll, n: nat)
    requires Told(was, mid, Ready, m) && Told(mid, now, poll, n)
    ensures Told(was, now, poll, m + n)
  {
    UsedThen(was, mid, now);
  }

  /** Bad data is not the inner reader's answer. */
  lemma ToldBadData(was: seq<Answer>, now: seq<Answer>, brought: nat)
    requires Told(was, now, Ready, brought)
    ensures Told(was, now, Failed(InvalidData), brought)
  {
  }

  lemma ToldNothing(was: seq<Answer>)
    ensures Told(was, was, Ready, 0)
  {
    assert was[0..] == was && Used(was, was) == [];
  }

  /** One poll of the inner reader, and what its caller makes of the end of file. */
  lemma ToldOnce(was: seq<Answer>, poll: Poll, got: seq<byte>)
    requires poll.Pending? <==> was != [] && was[0].NotReady?
    requires poll.Failed? <==> was != [] && was[0].Fails?
    requires poll.Failed? ==> poll.why.InnerError?
    ensures poll.Ready? && got == [] ==> Told(was, Tail(was), Failed(UnexpectedEof), 0)
    ensures poll.Ready? && got != [] ==> Told(was, Tail(was), Ready, |got|)
    ensures poll.Ready? && got != [] ==> Told(was, Tail(was), Failed(InvalidData), |got|)
    ensures !poll.Ready? ==> Told(was, Tail(was), poll, 0)
  {
    assert was != [] ==> Used(was, Tail(was)) == [was[0]];
    assert was == [] ==> Used(was, Tail(was)) == [];
  }

  /** Offset of the first CRLF. */
  function FindCrlf(s: seq<byte>): (r: Option<nat>)
    ensures r.Some? ==> CrlfAt(s, r.value) && forall i: nat :: i < r.value ==> !CrlfAt(s, i)
    ensures r.None? ==> !HasCrlf(s)
  {
    if |s| < 2 then None
    else if CrlfAt(s, 0) then Some(0)
    else
      var rest := FindCrlf(s[1..]);
      assert forall i: nat :: i > 0 ==> CrlfAt(s, i) == CrlfAt(s[1..], i - 1);
      if rest.None? then None else Some(rest.value + 1)
  }

  predicate InLine(c: Config) { c.state.NextSize? || c.state.Trailers? }

  class ChunkedDecoder {
    const inner: Inner
    var state: State
    var scratch: seq<byte>

    constructor (reader: Inner)
      requires reader.Valid()
      ensures inner == reader && Valid() && Current() == INITIAL
    {
      inner, state, scratch := reader, NextSize, [];
    }

    /** `scratch` stays under the limit of the line being read, and is empty
        outside the line-reading states. */
    ghost predicate Valid()
      reads this, inner
    {
      && inner.Valid()
      && match state
         case NextSize => !HasCrlf(scratch) && |scratch| < MAX_SIZE_LINE_BYTES
         case Trailers => !HasCrlf(scratch) && |scratch| < MAX_TRAILER_BYTES
         case AfterPayload(seen) => scratch == [] && seen <= 1
         case Errored => |scratch| <= MAX_TRAILER_BYTES
         case _ => scratch == []
    }

    /** The decoder's place in the byte-by-byte specification. */
    ghost function Current(): Config
      reads this
    {
      Config(if state == Payload(0) then AfterPayload(0) else state, scratch)
    }

    /** The read failed for a reason that is not in the bytes, and spoilt the decoder. */
    ghost predicate CutOff(poll: Poll)
      reads this
    {
      poll.Failed? && !poll.why.InvalidData? && state.Errored?
    }

    /** The bytes read since `from` took the decoder from `c` to where it is and handed
        out `out`; or to a place outside a header line, where it was cut off. */
    ghost predicate Went(c: Config, from: nat, out: seq<byte>, poll: Poll)
      reads this, inner
    {
      && from <= inner.pos <= |inner.data|
      && var r := Decode(c, inner.data[from..inner.pos]);
        && r.output == out && r.consumed == inner.pos - from
        && if CutOff(poll) then !Settled(r.last) && !InLine(r.last) else r.last == Current()
    }

    /** The call that began at `from` may answer `poll`. */
    ghost predicate Reason(c: Config, from: nat, poll: Poll)
      reads this, inner
    {
      && from <= inner.pos <= |inner.data|
      && var last := Decode(c, inner.data[from..inner.pos]).last;
        && (poll.Failed? && poll.why.InvalidData? ==> state.Errored? && !c.state.Errored?)
        && (poll.Failed? && poll.why.UnexpectedEof? ==> inner.pos == |inner.data| && !Settled(last))
        && (poll.Failed? ==> state.Errored? || InLine(Current()))
        && (!poll.Failed? && state.Errored? ==> c.state.Errored?)
    }

    /** Poll the inner reader for the next byte of a header line. */
    method PushByte() returns (poll: Poll)
      requires inner.Valid() && (state.NextSize? || state.Trailers?)
      requires !HasCrlf(scratch) && |scratch| < LineLimit(state)
      modifies `scratch, inner
      ensures inner.Valid() && old(inner.pos) <= inner.pos
      ensures Told(old(inner.script), inner.script, poll, inner.pos - old(inner.pos))
      ensures poll.Ready? ==> |scratch| == |old(scratch)| + 1 && scratch[..|scratch| - 1] == old(scratch)
      ensures poll.Ready? ==> inner.pos == old(inner.pos) + 1
      ensures poll.Ready? ==>
        Moves(LineConfig(state, old(scratch)), inner.data[old(inner.pos)..inner.pos], [], LineConfig(state, scratch))
      ensures !poll.Ready? ==> scratch == old(scratch) && inner.pos == old(inner.pos)
      ensures poll.Failed? ==> !poll.why.InvalidData? && (poll.why.UnexpectedEof? ==> inner.pos == |inner.data|)
    {
      ghost var was := inner.script;
      var p, got := inner.PollRead(1);
      ToldOnce(was, p, got);
      if !p.Ready? { return p; }
      if got == [] { return Failed(UnexpectedEof); }
      LinePush(state, scratch, got[0]);
      assert got == [got[0]];
      scratch := scratch + [got[0]];
      return Ready;
    }

    /** Read one CRLF-terminated line, one byte per poll of the inner reader. */
    method PollFillLine() returns (poll: Poll, line: seq<byte>)
      requires Valid() && (state.NextSize? || state.Trailers?)
      modifies this, inner
      ensures inner.Valid() && old(inner.pos) <= inner.pos
      ensures Told(old(inner.script), inner.script, poll, inner.pos - old(inner.pos))
      ensures poll.Ready? ==> inner.pos > old(inner.pos) && state == old(state) && scratch == []
      ensures poll.Ready? ==> var read := inner.data[old(inner.pos)..inner.pos];
        Moves(old(Current()), read, [], Config(AfterLine(state, line), []))
      ensures !poll.Ready? ==>
        Valid() && Went(old(Current()), old(inner.pos), [], poll) && Reason(old(Current()), old(inner.pos), poll)
      ensures poll.Failed? && poll.why.InvalidData? <==> state.Errored?
      ensures !state.Errored? ==> state == old(state)
    {
      hide Decode, LineConfig, AfterLine, HasCrlf, Told, LeftOf, Used;
      line := [];
      ghost var c, start, was := Current(), inner.pos, inner.script;
      ToldNothing(was);
      MovesNowhere(c, inner.data, start);
      NoLineYet(state, scratch);
      while true
        invariant inner.Valid() && start <= inner.pos && state == old(state) && |scratch| <= LineLimit(state)
        invariant inner.pos == start ==> !HasCrlf(scratch) && |scratch| < LineLimit(state)
        invariant scratch != [] ==> !HasCrlf(scratch[..|scratch| - 1])
        invariant Moves(c, inner.data[start..inner.pos], [], LineConfig(state, scratch))
        invariant Told(was, inner.script, Ready, inner.pos - start)
        decreases |inner.data| - inner.pos
      {
        var crlf := FindCrlf(scratch);
        if crlf.Some? {
          FoundCrlf(scratch, crlf.value);
          CrlfAtEnd(state, scratch, crlf.value);
          line := scratch[..crlf.value];
          scratch := scratch[crlf.value + 2..];
          return Ready, line;
        }
        NoLineYet(state, scratch);
        if |scratch| >= LineLimit(state) {
          state := Errored;
          ToldBadData(was, inner.script, inner.pos - start);
          return Failed(InvalidData), [];
        }
        ghost var at, had, mid := inner.pos, scratch, inner.script;
        var p := PushByte();
        ToldThen(was, mid, at - start, inner.script, p, inner.pos - at);
        if !p.Ready? { return p, []; }
        ReadOn(c, start, at, [], LineConfig(state, had), [], LineConfig(state, scratch));
      }
    }

    /** What was read from `start` to `at`, and from there to here, in one piece. */
    lemma ReadOn(c: Config, start: nat, at: nat, out: seq<byte>, d: Config, more: seq<byte>, e: Config)
      requires start <= at <= inner.pos <= |inner.data|
      requires Moves(c, inner.data[start..at], out, d) && Moves(d, inner.data[at..inner.pos], more, e)
      ensures Moves(c, inner.data[start..inner.pos], out + more, e)
    {
      MovesOn(c, inner.data[start..at], out, d, inner.data[at..inner.pos], more, e);
      assert inner.data[start..at] + inner.data[at..inner.pos] == inner.data[start..inner.pos];
    }

    /** The same when the second call may have been cut off. */
    lemma WentOn(c: Config, start: nat, at: nat, out: seq<byte>, d: Config, more: seq<byte>, poll: Poll)
      requires start <= at <= inner.pos <= |inner.data|
      requires Moves(c, inner.data[start..at], out, d) && Went(d, at, more, poll)
      ensures Went(c, start, out + more, poll)
      ensures Decode(c, inner.data[start..inner.pos]).last == Decode(d, inner.data[at..inner.pos]).last
    {
      ReadOn(c, start, at, out, d, more, Decode(d, inner.data[at..inner.pos]).last);
    }

    /** Read straight into the caller's buffer, never past the end of the chunk. */
    method PollPayload(room: nat) returns (poll: Poll, out: seq<byte>)
      requires Valid() && state.Payload? && state.remaining > 0 && room > 0
      modifies this, inner
      ensures Valid() && |out| <= room && inner.pos == old(inner.pos) + |out|
      ensures Went(old(Current()), old(inner.pos), out, poll) && Reason(old(Current()), old(inner.pos), poll)
      ensures Told(old(inner.script), inner.script, poll, |out|)
      ensures poll.Ready? <==> out != []
      ensures poll.Failed? <==> state.Errored?
      ensures poll.Failed? ==> !poll.why.InvalidData?
    {
      ghost var was, at := inner.script, inner.pos;
      var remaining := state.remaining;
      poll, out := inner.PollRead(if remaining < room then remaining else room);
      ToldOnce(was, poll, out);
      if poll.Failed? { state := Errored; return; }
      if poll.Pending? { return; }
      if out == [] {
        state := Errored;
        return Failed(UnexpectedEof), [];
      }
      DecodePayload(remaining, out, |out|);
      assert out[..|out|] == out && out[|out|..] == [] && out + [] == out;
      state := Payload(remaining - |out|);
    }

    /** One byte of the CRLF that closes a chunk. */
    method PollAfterPayload() returns (poll: Poll)
      requires Valid() && state.AfterPayload?
      modifies this, inner
      ensures Valid() && old(inner.pos) <= inner.pos
      ensures Went(old(Current()), old(inner.pos), [], poll) && Reason(old(Current()), old(inner.pos), poll)
      ensures Told(old(inner.script), inner.script, poll, inner.pos - old(inner.pos))
      ensures poll.Ready? ==> inner.pos == old(inner.pos) + 1 && !state.Errored?
      ensures poll.Failed? <==> state.Errored?
      ensures !state.Payload? && !state.Done? && !state.Trailers?
      ensures poll.Pending? ==> state == old(state)
    {
      ghost var was := inner.script;
      var p, got := inner.PollRead(1);
      ToldOnce(was, p, got);
      if p.Failed? { state := Errored; return p; }
      if p.Pending? { return p; }
      if got == [] {
        state := Errored;
        return Failed(UnexpectedEof);
      }
      assert got == [got[0]];
      CrlfPush(state.seen, got[0]);
      var want := if state.seen == 0 then CR else LF;
      if got[0] != want {
        state := Errored;
        return Failed(InvalidData);
      }
      state := if state.seen == 1 then NextSize else AfterPayload(1);
      return Ready;
    }

    /** A chunk-size line or a trailer line, and what it decides. */
    method PollHeader() returns (poll: Poll)
      requires Valid() && (state.NextSize? || state.Trailers?)
      modifies this, inner
      ensures Valid() && old(inner.pos) <= inner.pos
      ensures Went(old(Current()), old(inner.pos), [], poll) && Reason(old(Current()), old(inner.pos), poll)
      ensures Told(old(inner.script), inner.script, poll, inner.pos - old(inner.pos))
      ensures poll.Ready? ==> inner.pos > old(inner.pos)
      ensures poll.Failed? && poll.why.InvalidData? <==> state.Errored?
      ensures !poll.Ready? && !state.Errored? ==> state == old(state)
    {
      ghost var was := inner.script;
      var line;
      poll, line := PollFillLine();
      if !poll.Ready? { return; }
      if state.Trailers? {
        if line == [] { state := Done; }
        return;
      }
      var size := ParseChunkSize(line);
      if size.None? {
        state := Errored;
        poll := Failed(InvalidData);
        return;
      }
      state := if size.value == 0 then Trailers else Payload(size.value);
    }

    /** Everything between payload bytes: framing is read until payload is next,
        the stream is over, or the inner reader has nothing. */
    method PollFraming() returns (poll: Poll)
      requires Valid()
      modifies this, inner
      ensures Valid() && old(inner.pos) <= inner.pos
      ensures Went(old(Current()), old(inner.pos), [], poll) && Reason(old(Current()), old(inner.pos), poll)
      ensures Told(old(inner.script), inner.script, poll, inner.pos - old(inner.pos))
      ensures poll.Ready? ==> Settled(Current()) || (state.Payload? && state.remaining > 0)
      ensures old(Settled(Current()) || (state.Payload? && state.remaining > 0)) ==>
        poll.Ready? && state == old(state) && inner.pos == old(inner.pos)
    {
      hide Decode, HasCrlf, Told, LeftOf, Used;
      ghost var c, start, was := Current(), inner.pos, inner.script;
      ToldNothing(was);
      MovesNowhere(c, inner.data, start);
      while !Settled(Config(state, scratch)) && !(state.Payload? && state.remaining > 0)
        invariant Valid() && start <= inner.pos && Moves(c, inner.data[start..inner.pos], [], Current())
        invariant Told(was, inner.script, Ready, inner.pos - start)
        invariant old(Settled(Current()) || (state.Payload? && state.remaining > 0)) ==>
          state == old(state) && inner.pos == start
        invariant state.Errored? ==> c.state.Errored?
        decreases |inner.data| - inner.pos, if state.Payload? then 1 else 0
      {
        if state.Payload? {
          state := AfterPayload(0);
        } else {
          ghost var at, mid, d := inner.pos, inner.script, Current();
          if state.AfterPayload? { poll := PollAfterPayload(); } else { poll := PollHeader(); }
          ToldThen(was, mid, at - start, inner.script, poll, inner.pos - at);
          WentOn(c, start, at, [], d, [], poll);
          if !poll.Ready? { return; }
        }
      }
      poll := Ready;
    }

    /** One poll by the caller, with `room` bytes of buffer: the bytes it reads decode to
        the bytes it hands out, it is pending or fails with an inner error exactly when
        the inner reader was so in this call, and an empty answer is the end of the stream. */
    method PollRead(room: nat) returns (poll: Poll, out: seq<byte>)
      requires Valid()
      modifies this, inner
      ensures Valid() && |out| <= room && old(inner.pos) <= inner.pos
      ensures Went(old(Current()), old(inner.pos), out, poll) && Reason(old(Current()), old(inner.pos), poll)
      ensures Told(old(inner.script), inner.script, poll, inner.pos - old(inner.pos))
      ensures out != [] ==> poll.Ready?
      ensures poll.Ready? && out == [] ==> Settled(Current()) || (room == 0 && state.Payload?)
      ensures old(Settled(Current())) ==> poll.Ready? && out == [] && state == old(state) && inner.pos == old(inner.pos)
    {
      out := [];
      ghost var c, start, was := Current(), inner.pos, inner.script;
      poll := PollFraming();
      if !poll.Ready? || !state.Payload? || room == 0 { return; }
      ghost var at, mid, d := inner.pos, inner.script, Current();
      poll, out := PollPayload(room);
      ToldThen(was, mid, at - start, inner.script, poll, inner.pos - at);
      WentOn(c, start, at, [], d, out, poll);
      assert [] + out == out;
    }
  }

  lemma FoundCrlf(s: seq<byte>, at: nat)
    requires CrlfAt(s, at)
    ensures HasCrlf(s)
  {
  }

  lemma CrlfAtEnd(state: State, scratch: seq<byte>, at: nat)
    requires CrlfAt(scratch, at)
    requires !HasCrlf(scratch[..|scratch| - 1])
    ensures at == |scratch| - 2 && LineConfig(state, scratch) == Config(AfterLine(state, scratch[..at]), [])
    ensures scratch[at + 2..] == []
  {
    var front := scratch[..|scratch| - 1];
    if at + 1 < |front| { assert CrlfAt(front, at); }
  }

  lemma NoLineYet(state: State, scratch: seq<byte>)
    requires !HasCrlf(scratch)
    ensures LineConfig(state, scratch) ==
      if |scratch| >= LineLimit(state) then Config(Errored, scratch) else Config(state, scratch)
    ensures scratch != [] ==> !HasCrlf(scratch[..|scratch| - 1])
  {
    if EndsLine(scratch) { assert CrlfAt(scratch, |scratch| - 2); }
    if scratch != [] && HasCrlf(scratch[..|scratch| - 1]) {
      var i :| CrlfAt(scratch[..|scratch| - 1], i);
      assert CrlfAt(scratch, i);
    }
  }
}
