/** The resynchronising frame reader: frames are found again in a byte stream that also carries other things. */
module FrameReader {
  import opened Bytes

  const START1: byte := 0x94
  const START2: byte := 0xC3
  const HEADER: nat := 4
  const MAX_FRAME: nat := 512
  const MAX_LOG_LINE: nat := 512

  function Framed(payload: bytes): bytes
    requires |payload| <= MAX_FRAME
  {
    [START1, START2, |payload| / 0x100, |payload| % 0x100] + payload
  }

  datatype Error = FrameTooLarge

  method AppendFrame(dst: bytes, payload: bytes) returns (r: Result<bytes, Error>)
    ensures |payload| > MAX_FRAME ==> r == Err(FrameTooLarge)
    ensures |payload| <= MAX_FRAME ==> r == Ok(dst + Framed(payload))
  {
    if |payload| > MAX_FRAME {
      return Err(FrameTooLarge);
    }
    var out := dst + [START1, START2, |payload| / 0x100, |payload| % 0x100];
    out := out + payload;
    assert out == dst + Framed(payload);
    return Ok(out);
  }

  // `rest` is what is left of the bytes that have come so far. `lines` is what the log sink has been given.
  datatype State = State(rest: bytes, skipped: nat, frames: nat, line: bytes, lines: seq<bytes>)

  // What follows those bytes: the end of the stream, or some other read error, after which more may come.
  datatype Ending = AtEOF | Broken

  datatype Read = Frame(payload: bytes) | UnexpectedEOF | EOF | ReadError

  // ---- the log sink ----------------------------------------------------------------------------------------

  predicate Control(b: byte) {
    b < 0x20 || b == 0x7F
  }

  function Sanitised(b: byte): byte {
    if Control(b) then 0x2E else b
  }

  function Flushed(s: State, onText: bool): State {
    if !onText || s.line == [] then s else s.(line := [], lines := s.lines + [s.line])
  }

  // One byte leaves the stream for the sink.
  function SkippedOne(s: State, onText: bool): State
    requires s.rest != []
  {
    var b := s.rest[0];
    var t := s.(rest := s.rest[1..], skipped := s.skipped + 1);
    if !onText then t
    else if b == 0x0A then Flushed(t, onText)
    else if b == 0x0D then t
    else if |t.line| < MAX_LOG_LINE then t.(line := t.line + [Sanitised(b)])
    else t
  }

  function SkippedAll(s: State, onText: bool): State
    decreases |s.rest|
  {
    if s.rest == [] then s else SkippedAll(SkippedOne(s, onText), onText)
  }

  // ---- reading ---------------------------------------------------------------------------------------------

  // The stream begins with the marker and a length within bounds.
  predicate StartsFrame(rest: bytes) {
    |rest| >= HEADER && rest[0] == START1 && rest[1] == START2 && Length(rest) <= MAX_FRAME
  }

  function Length(rest: bytes): nat
    requires |rest| >= HEADER
  {
    rest[2] as int * 0x100 + rest[3]
  }

  // What is left cannot grow into a header and so far looks like the start of one.
  predicate CutShort(rest: bytes) {
    0 < |rest| < HEADER && rest[0] == START1 && (|rest| > 1 ==> rest[1] == START2)
  }

  // What is left begins a frame whose body is not all there.
  predicate BodyCut(rest: bytes) {
    StartsFrame(rest) && |rest| < HEADER + Length(rest)
  }

  function Next(s: State, onText: bool, ending: Ending): (State, Read)
    decreases |s.rest|
  {
    if s.rest == [] then (Flushed(s, onText), if ending.AtEOF? then EOF else ReadError)
    else if CutShort(s.rest) then
      if ending.AtEOF? then (Flushed(SkippedAll(s, onText), onText), UnexpectedEOF) else (Flushed(s, onText), ReadError)
    else if !StartsFrame(s.rest) then Next(SkippedOne(s, onText), onText, ending)
    else
      var end := HEADER + Length(s.rest);
      var t := Flushed(s, onText);
      if |s.rest| < end then (t.(rest := []), if ending.AtEOF? then UnexpectedEOF else ReadError)
      else (t.(rest := s.rest[end..], frames := s.frames + 1), Frame(s.rest[HEADER..end]))
  }

  class FrameReader {
    const onText: bool
    var rest: bytes
    var skipped: nat
    var frames: nat
    var line: bytes
    var lines: seq<bytes>

    ghost function Value(): State
      reads this
    {
      State(rest, skipped, frames, line, lines)
    }

    constructor (stream: bytes, onText: bool)
      ensures this.onText == onText && Value() == State(stream, 0, 0, [], [])
    {
      this.onText := onText;
      rest, skipped, frames, line, lines := stream, 0, 0, [], [];
    }

    method FlushLine()
      modifies this`line, this`lines
      ensures Value() == Flushed(old(Value()), onText)
    {
      if !onText || |line| == 0 {
        return;
      }
      lines := lines + [line];
      line := [];
    }

    method SkipByte()
      modifies this`rest, this`skipped, this`line, this`lines
      ensures Value() == if old(rest) == [] then old(Value()) else SkippedOne(old(Value()), onText)
    {
      if |rest| == 0 {
        return;
      }
      var b := rest[0];
      rest := rest[1..];
      skipped := skipped + 1;
      if !onText {
        return;
      }
      if b == 0x0A {
        FlushLine();
      } else if b == 0x0D {
      } else if |line| < MAX_LOG_LINE {
        line := line + [Sanitised(b)];
      }
    }

    method ReadFrame(ending: Ending) returns (r: Read)
      modifies this
      ensures (Value(), r) == Next(old(Value()), onText, ending)
    {
      hide SkippedOne, Flushed, SkippedAll;
      while true
        invariant Next(Value(), onText, ending) == Next(old(Value()), onText, ending)
        decreases |rest|
      {
        if |rest| < HEADER {
          if |rest| > 0 && (rest[0] != START1 || (|rest| > 1 && rest[1] != START2)) {
            ShorterBy(Value(), onText);
            SkipByte();
            continue;
          }
          if |rest| > 0 && ending.AtEOF? {
            SkipRest();
            FlushLine();
            return UnexpectedEOF;
          }
          FlushLine();
          return if ending.AtEOF? then EOF else ReadError;
        }
        if rest[0] != START1 || rest[1] != START2 || Length(rest) > MAX_FRAME {
          ShorterBy(Value(), onText);
          SkipByte();
          continue;
        }
        var n := Length(rest);
        var body := rest[HEADER..];
        FlushKeepsStream(Value(), onText);
        FlushLine();
        if |body| < n {
          rest := [];
          return if ending.AtEOF? then UnexpectedEOF else ReadError;
        }
        assert body[n..] == rest[HEADER + n..] && body[..n] == rest[HEADER..HEADER + n];
        rest := body[n..];
        frames := frames + 1;
        return Frame(body[..n]);
      }
    }

    method SkipRest()
      modifies this`rest, this`skipped, this`line, this`lines
      ensures Value() == SkippedAll(old(Value()), onText)
    {
      hide SkippedOne;
      while |rest| > 0
        invariant SkippedAll(Value(), onText) == SkippedAll(old(Value()), onText)
        decreases |rest|
      {
        ShorterBy(Value(), onText);
        SkipByte();
      }
    }
  }

  lemma ShorterBy(s: State, onText: bool)
    requires s.rest != []
    ensures var t := SkippedOne(s, onText);
            t.rest == s.rest[1..] && t.skipped == s.skipped + 1 && t.frames == s.frames
  {
  }

  lemma FlushKeepsStream(s: State, onText: bool)
    ensures var t := Flushed(s, onText); t.rest == s.rest && t.skipped == s.skipped && t.frames == s.frames
  {
  }

  // ---- what one read does ----------------------------------------------------------------------------------

  lemma {:induction false} SkipAllCounts(s: State, onText: bool)
    ensures var t := SkippedAll(s, onText);
            t.rest == [] && t.skipped == s.skipped + |s.rest| && t.frames == s.frames
    decreases |s.rest|
  {
    if s.rest != [] {
      SkipAllCounts(SkippedOne(s, onText), onText);
    }
  }

  lemma FrameThenRest(rest: bytes, end: nat)
    requires StartsFrame(rest) && end == HEADER + Length(rest) <= |rest|
    ensures rest == Framed(rest[HEADER..end]) + rest[end..]
  {
    assert rest[..HEADER] == [START1, START2, Length(rest) / 0x100, Length(rest) % 0x100];
  }

  lemma PrependOne(rest: bytes, k: nat, middle: bytes, after: bytes)
    requires rest != [] && k <= |rest| - 1
    ensures rest[1..] == rest[1..][..k] + middle + after ==> rest == rest[..k + 1] + middle + after
    ensures rest[1..][k..] == rest[k + 1..]
  {
    assert rest[..k + 1] == [rest[0]] + rest[1..][..k];
    assert rest == [rest[0]] + rest[1..];
  }

  // What one read has done: it skipped k bytes, then took a frame or came to the end of what had come.
  ghost predicate Did(s: State, t: State, r: Read, ending: Ending, k: int) {
    && 0 <= k <= |s.rest| && t.skipped == s.skipped + k
    && if r.Frame? then
         && |r.payload| <= MAX_FRAME && t.frames == s.frames + 1
         && s.rest == s.rest[..k] + Framed(r.payload) + t.rest
       else
         var left := s.rest[k..];
         && t.frames == s.frames && ending.AtEOF? == !r.ReadError?
         && ((r.EOF? && left == [] == t.rest)
             || (r.UnexpectedEOF? && t.rest == [] && (left == [] || BodyCut(left)))
             || (r.ReadError? && ((t.rest == left && (left == [] || CutShort(left)))
               || (t.rest == [] && BodyCut(left)))))
  }

  lemma FrameTaken(s: State, onText: bool, ending: Ending)
    requires StartsFrame(s.rest) && |s.rest| >= HEADER + Length(s.rest)
    ensures var (t, r) := Next(s, onText, ending); t.skipped == s.skipped && Did(s, t, r, ending, 0)
  {
    hide SkippedOne, Flushed, SkippedAll, Framed;
    FlushKeepsStream(s, onText);
    FrameThenRest(s.rest, HEADER + Length(s.rest));
  }

  lemma BytesEndHere(s: State, onText: bool, ending: Ending)
    requires s.rest == [] || CutShort(s.rest) || BodyCut(s.rest)
    ensures var (t, r) := Next(s, onText, ending); Did(s, t, r, ending, t.skipped - s.skipped)
  {
    hide SkippedOne, Flushed, SkippedAll, Length;
    FlushKeepsStream(s, onText);
    SkipAllCounts(s, onText);
    FlushKeepsStream(SkippedAll(s, onText), onText);
  }

  lemma DidOneMore(s: State, u: State, t: State, r: Read, ending: Ending, k: int)
    requires s.rest != [] && u.rest == s.rest[1..] && u.skipped == s.skipped + 1 && u.frames == s.frames
    requires Did(u, t, r, ending, k)
    ensures Did(s, t, r, ending, k + 1)
  {
    hide BodyCut, CutShort, Framed;
    PrependOne(s.rest, k, if r.Frame? then Framed(r.payload) else [], t.rest);
  }

  /** What is read was framed: the stream was some skipped bytes, exactly that frame, and what is left. Where
      the bytes end everything is counted, but for a body cut short, and but for the start of a header that
      a read error leaves to be read again. */
  lemma {:induction false} ReadTakesAFrame(s: State, onText: bool, ending: Ending)
    ensures var (t, r) := Next(s, onText, ending); Did(s, t, r, ending, t.skipped - s.skipped)
    decreases |s.rest|
  {
    hide SkippedOne, Flushed, SkippedAll, Framed, Length, Did, CutShort, StartsFrame;
    if s.rest == [] || CutShort(s.rest) {
      BytesEndHere(s, onText, ending);
    } else if !StartsFrame(s.rest) {
      ShorterBy(s, onText);
      var u := SkippedOne(s, onText);
      ReadTakesAFrame(u, onText, ending);
      var (t, r) := Next(u, onText, ending);
      DidOneMore(s, u, t, r, ending, t.skipped - u.skipped);
    } else if BodyCut(s.rest) {
      BytesEndHere(s, onText, ending);
    } else {
      FrameTaken(s, onText, ending);
    }
  }

  // ---- a read error that is not the end ---------------------------------------------------------------------

  ghost predicate SameStream(s: State, t: State) {
    s.rest == t.rest && s.skipped == t.skipped && s.frames == t.frames
  }

  // What goes to the log changes nothing else.
  lemma {:induction false} LogDoesNotMatter(s: State, t: State, onText: bool, ending: Ending)
    requires SameStream(s, t)
    ensures Next(s, onText, ending).1 == Next(t, onText, ending).1
    ensures SameStream(Next(s, onText, ending).0, Next(t, onText, ending).0)
    decreases |s.rest|
  {
    hide SkippedOne, Flushed, SkippedAll, Length;
    FlushKeepsStream(s, onText);
    FlushKeepsStream(t, onText);
    if s.rest != [] {
      if CutShort(s.rest) {
        SkipAllCounts(s, onText);
        SkipAllCounts(t, onText);
        FlushKeepsStream(SkippedAll(s, onText), onText);
        FlushKeepsStream(SkippedAll(t, onText), onText);
      } else if !StartsFrame(s.rest) {
        ShorterBy(s, onText);
        ShorterBy(t, onText);
        LogDoesNotMatter(SkippedOne(s, onText), SkippedOne(t, onText), onText, ending);
      }
    }
  }

  function Extended(s: State, more: bytes): State {
    s.(rest := s.rest + more)
  }

  lemma SkipThenExtend(s: State, onText: bool, more: bytes)
    requires s.rest != []
    ensures SkippedOne(Extended(s, more), onText) == Extended(SkippedOne(s, onText), more)
  {
    assert (s.rest + more)[1..] == s.rest[1..] + more;
  }

  // Bytes that start no frame do not come to start one.
  lemma NoStartYet(rest: bytes, more: bytes)
    requires rest != [] && !CutShort(rest) && !StartsFrame(rest)
    ensures !CutShort(rest + more) && !StartsFrame(rest + more)
  {
  }

  /** A read error in between frames loses nothing: when more bytes come, the next read finds what it would have
      found had they been there at once, and everything is counted the same. */
  lemma {:induction false} AnErrorBetweenFramesLosesNothing(s: State, onText: bool, more: bytes, ending: Ending)
    requires var (t, r) := Next(s, onText, Broken); r.ReadError? && t.skipped + |t.rest| == s.skipped + |s.rest|
    ensures var t := Next(s, onText, Broken).0;
            && Next(Extended(t, more), onText, ending).1 == Next(Extended(s, more), onText, ending).1
            && SameStream(Next(Extended(t, more), onText, ending).0, Next(Extended(s, more), onText, ending).0)
    decreases |s.rest|
  {
    hide SkippedOne, Flushed, SkippedAll, Length, StartsFrame;
    FlushKeepsStream(s, onText);
    if s.rest == [] || CutShort(s.rest) {
      LogDoesNotMatter(Extended(Flushed(s, onText), more), Extended(s, more), onText, ending);
    } else if !StartsFrame(s.rest) {
      ShorterBy(s, onText);
      SkipThenExtend(s, onText, more);
      NoStartYet(s.rest, more);
      var u := SkippedOne(s, onText);
      AnErrorBetweenFramesLosesNothing(u, onText, more, ending);
    }
  }

  // ---- whole streams ---------------------------------------------------------------------------------------

  // Reads until the bytes end.
  function ReadAll(s: State, onText: bool, ending: Ending): (seq<bytes>, State)
    decreases |s.rest|
  {
    ReadTakesAFrame(s, onText, ending);
    var (t, r) := Next(s, onText, ending);
    if r.Frame? then
      var (more, end) := ReadAll(t, onText, ending);
      ([r.payload] + more, end)
    else ([], t)
  }

  // Noise is anything without the two marker bytes side by side.
  ghost predicate Noise(n: bytes) {
    forall i :: 0 <= i < |n| - 1 ==> !(n[i] == START1 && n[i + 1] == START2)
  }

  datatype Piece = Piece(noise: bytes, payload: bytes)

  ghost predicate Sendable(pieces: seq<Piece>) {
    forall p :: p in pieces ==> Noise(p.noise) && |p.payload| <= MAX_FRAME
  }

  function Wire(pieces: seq<Piece>, tail: bytes): bytes
    requires forall p :: p in pieces ==> |p.payload| <= MAX_FRAME
  {
    if pieces == [] then tail
    else pieces[0].noise + Framed(pieces[0].payload) + Wire(pieces[1..], tail)
  }

  function Payloads(pieces: seq<Piece>): seq<bytes> {
    if pieces == [] then [] else [pieces[0].payload] + Payloads(pieces[1..])
  }

  function NoiseLength(pieces: seq<Piece>): nat {
    if pieces == [] then 0 else |pieces[0].noise| + NoiseLength(pieces[1..])
  }

  // A read goes through noise to the frame behind it.
  lemma {:induction false} ReadPassesNoise(s: State, onText: bool, ending: Ending,
                                          noise: bytes, payload: bytes, after: bytes)
    requires Noise(noise) && |payload| <= MAX_FRAME && s.rest == noise + Framed(payload) + after
    ensures var (t, r) := Next(s, onText, ending);
            r == Frame(payload) && t.rest == after && t.skipped == s.skipped + |noise| && t.frames == s.frames + 1
    decreases |noise|
  {
    if noise == [] {
      assert s.rest == Framed(payload) + after;
      FlushKeepsStream(s, onText);
      assert Length(s.rest) == |payload|;
      assert s.rest[HEADER..HEADER + |payload|] == payload && s.rest[HEADER + |payload|..] == after;
    } else {
      hide SkippedOne;
      ShorterBy(s, onText);
      assert s.rest[1..] == noise[1..] + Framed(payload) + after;
      assert !(s.rest[0] == START1 && s.rest[1] == START2) by {
        if |noise| > 1 {
          assert !(noise[0] == START1 && noise[1] == START2);
        } else {
          assert s.rest[1] == Framed(payload)[0];
        }
      }
      ReadPassesNoise(SkippedOne(s, onText), onText, ending, noise[1..], payload, after);
    }
  }

  lemma {:induction false} NoiseAtTheEnd(s: State, onText: bool, ending: Ending)
    requires Noise(s.rest)
    ensures var (t, r) := Next(s, onText, ending);
            var mark := s.rest != [] && s.rest[|s.rest| - 1] == START1;
            && t.frames == s.frames
            && t.rest == (if mark && ending.Broken? then [START1] else [])
            && t.skipped == s.skipped + |s.rest| - |t.rest|
            && r == if ending.Broken? then ReadError else if mark then UnexpectedEOF else EOF
    decreases |s.rest|
  {
    hide SkippedOne, SkippedAll, Flushed;
    if s.rest == [] {
      FlushKeepsStream(s, onText);
    } else if CutShort(s.rest) {
      SkipAllCounts(s, onText);
      FlushKeepsStream(s, onText);
      FlushKeepsStream(SkippedAll(s, onText), onText);
    } else {
      ShorterBy(s, onText);
      NoiseAtTheEnd(SkippedOne(s, onText), onText, ending);
    }
  }

  /** Frames interleaved with noise come back exactly, in order, and every other byte is counted as skipped,
      except that a read error leaves a last marker byte to be read again. */
  lemma {:induction false} FramesSurviveNoise(s: State, onText: bool, ending: Ending,
                                              pieces: seq<Piece>, tail: bytes)
    requires Sendable(pieces) && Noise(tail) && s.rest == Wire(pieces, tail)
    ensures var (payloads, end) := ReadAll(s, onText, ending);
            && payloads == Payloads(pieces) && |end.rest| <= (if ending.Broken? then 1 else 0)
            && end.skipped == s.skipped + NoiseLength(pieces) + |tail| - |end.rest|
            && end.frames == s.frames + |pieces|
    decreases |pieces|
  {
    hide Next;
    if pieces == [] {
      NoiseAtTheEnd(s, onText, ending);
    } else {
      var p := pieces[0];
      ReadPassesNoise(s, onText, ending, p.noise, p.payload, Wire(pieces[1..], tail));
      FramesSurviveNoise(Next(s, onText, ending).0, onText, ending, pieces[1..], tail);
    }
  }

  function FrameBytes(payloads: seq<bytes>): nat {
    if payloads == [] then 0 else HEADER + |payloads[0]| + FrameBytes(payloads[1..])
  }

  /** On any stream at all: the bytes are the skipped ones, the frames read, what is left to be read again after
      an error, and at most one frame cut short. */
  lemma {:induction false} EveryByteIsAccountedFor(s: State, onText: bool, ending: Ending)
    ensures var (payloads, end) := ReadAll(s, onText, ending);
            var counted := end.skipped - s.skipped + FrameBytes(payloads) + |end.rest|;
            && |end.rest| < HEADER && (ending.AtEOF? ==> end.rest == []) && end.frames == s.frames + |payloads|
            && counted <= |s.rest| < counted + HEADER + MAX_FRAME
    decreases |s.rest|
  {
    hide Next;
    ReadTakesAFrame(s, onText, ending);
    var (t, r) := Next(s, onText, ending);
    if r.Frame? {
      EveryByteIsAccountedFor(t, onText, ending);
    }
  }

  // ---- what reaches the terminal ---------------------------------------------------------------------------

  ghost predicate Displayable(line: bytes) {
    |line| <= MAX_LOG_LINE && forall b :: b in line ==> !Control(b)
  }

  ghost predicate CleanLog(s: State) {
    Displayable(s.line) && forall l :: l in s.lines ==> Displayable(l) && l != []
  }

  lemma SkipKeepsLogClean(s: State, onText: bool)
    requires CleanLog(s) && s.rest != []
    ensures CleanLog(SkippedOne(s, onText))
  {
  }

  lemma {:induction false} SkipAllKeepsLogClean(s: State, onText: bool)
    requires CleanLog(s)
    ensures CleanLog(SkippedAll(s, onText))
    decreases |s.rest|
  {
    if s.rest != [] {
      SkipKeepsLogClean(s, onText);
      SkipAllKeepsLogClean(SkippedOne(s, onText), onText);
    }
  }

  /** Whatever the stream holds, no control byte and no over-long line ever reaches the log sink. */
  lemma {:induction false} LogStaysClean(s: State, onText: bool, ending: Ending)
    requires CleanLog(s)
    ensures CleanLog(Next(s, onText, ending).0)
    decreases |s.rest|
  {
    hide SkippedOne;
    if s.rest != [] && !CutShort(s.rest) && !StartsFrame(s.rest) {
      SkipKeepsLogClean(s, onText);
      ShorterBy(s, onText);
      LogStaysClean(SkippedOne(s, onText), onText, ending);
    } else {
      SkipAllKeepsLogClean(s, onText);
    }
  }

  // A line as devices print it: no marker, no line end, nothing too long to keep.
  ghost predicate Line(text: bytes) {
    |text| <= MAX_LOG_LINE && forall b :: b in text ==> b != START1 && b != 0x0A && b != 0x0D
  }

  function Cleaned(text: bytes): bytes {
    seq(|text|, i requires 0 <= i < |text| => Sanitised(text[i]))
  }

  lemma SkipsText(s: State, ending: Ending, b: byte)
    requires s.rest != [] && s.rest[0] == b && b != START1
    ensures Next(s, true, ending) == Next(SkippedOne(s, true), true, ending)
  {
    hide SkippedOne;
  }

  lemma KeepsText(s: State, b: byte)
    requires s.rest != [] && s.rest[0] == b && b != 0x0A && b != 0x0D && |s.line| < MAX_LOG_LINE
    ensures SkippedOne(s, true) ==
            s.(rest := s.rest[1..], skipped := s.skipped + 1, line := s.line + [Sanitised(b)])
  {
  }

  lemma LineGoesOn(text: bytes)
    requires Line(text) && text != []
    ensures Line(text[1..]) && Cleaned(text) == [Sanitised(text[0])] + Cleaned(text[1..])
    ensures text[0] != START1 && text[0] != 0x0A && text[0] != 0x0D
  {
    assert text[0] in text;
    assert forall b :: b in text[1..] ==> b in text;
  }

  // A line being read is collected, byte by byte.
  lemma {:induction false} CollectsText(s: State, ending: Ending, text: bytes, after: bytes)
    requires s.rest == text + after && Line(text) && |s.line| + |text| <= MAX_LOG_LINE
    ensures Next(s, true, ending) ==
            Next(s.(rest := after, skipped := s.skipped + |text|, line := s.line + Cleaned(text)), true, ending)
    decreases |text|
  {
    if text == [] {
      assert s.rest == after && s.line + Cleaned(text) == s.line;
    } else {
      LineGoesOn(text);
      SkipsText(s, ending, text[0]);
      KeepsText(s, text[0]);
      assert s.rest[1..] == text[1..] + after;
      hide Next, Line, Cleaned, SkippedOne;
      CollectsText(SkippedOne(s, true), ending, text[1..], after);
      assert s.line + [Sanitised(text[0])] + Cleaned(text[1..]) == s.line + Cleaned(text);
    }
  }

  /** Masking puts a dot for every control byte and touches nothing else. */
  lemma CleanedIsItself(text: bytes)
    ensures |Cleaned(text)| == |text|
    ensures forall i :: 0 <= i < |text| ==> Cleaned(text)[i] == if Control(text[i]) then '.' as int else text[i]
    ensures (forall b :: b in text ==> !Control(b)) ==> Cleaned(text) == text
  {
  }

  /** What a device prints between frames reaches the log, line by line: a line is handed over whole, control bytes
      masked and nothing else changed, and reading goes on behind it. */
  lemma TextReachesTheLog(s: State, ending: Ending, text: bytes, after: bytes)
    requires s.rest == text + [0x0A] + after && s.line == [] && Line(text) && text != []
    ensures Next(s, true, ending) ==
            Next(s.(rest := after, skipped := s.skipped + |text| + 1, lines := s.lines + [Cleaned(text)]), true, ending)
  {
    assert s.rest == text + ([0x0A] + after);
    CollectsText(s, ending, text, [0x0A] + after);
    var t := s.(rest := [0x0A] + after, skipped := s.skipped + |text|, line := Cleaned(text));
    assert s.line + Cleaned(text) == Cleaned(text);
    EndsLine(t, after);
    hide Next, SkippedOne, Cleaned, Line;
    SkipsText(t, ending, 0x0A);
  }

  lemma EndsLine(t: State, after: bytes)
    requires t.rest == [0x0A] + after && t.line != []
    ensures SkippedOne(t, true) ==
            t.(rest := after, skipped := t.skipped + 1, line := [], lines := t.lines + [t.line])
  {
    assert t.rest[1..] == after;
  }
}
