/**
  The output of a program on its way from a box: two streams, cut into lines and
  framed with a stream number and a length, and taken apart again byte by byte.
*/
module OutputProtocol {
  import opened Options

  newtype byte = x: int | 0 <= x < 256

  const NEWLINE: byte := 10
  const SPACE: byte := 32
  const PLUS: byte := 43
  const DASH: byte := 45
  const UNDERSCORE: byte := 95

  // -------------------------------------------------------------------------
  // Decimal numbers
  // -------------------------------------------------------------------------

  predicate IsDigit(b: byte) {
    48 <= b <= 57
  }

  function Decimal(n: nat): (text: seq<byte>)
    ensures text != [] && forall k :: 0 <= k < |text| ==> IsDigit(text[k])
  {
    if n < 10 then [(48 + n) as byte] else Decimal(n / 10) + [(48 + n % 10) as byte]
  }

  function SignedDecimal(n: int): (text: seq<byte>)
    ensures text != []
  {
    if n < 0 then [DASH] + Decimal(-n) else Decimal(n)
  }

  /** The number that digits stand for, with single underscores between them. */
  function ParseDigits(text: seq<byte>): Option<nat> {
    var n := |text| - 1;
    if text == [] || !IsDigit(text[n]) then None
    else if n == 0 then Some((text[0] - 48) as nat)
    else
      match ParseDigits(text[..if text[n - 1] == UNDERSCORE then n - 1 else n])
      case None => None
      case Some(tens) => Some(10 * tens + (text[n] - 48) as nat)
  }

  predicate IsBlank(b: byte) {
    9 <= b <= 13 || 28 <= b <= 32
  }

  function Strip(text: seq<byte>): seq<byte> {
    if text == [] then []
    else if IsBlank(text[0]) then Strip(text[1..])
    else if IsBlank(text[|text| - 1]) then Strip(text[..|text| - 1])
    else text
  }

  /** The number that a text stands for: digits, with a sign before them or not, and blanks around. */
  function ParseInt(text: seq<byte>): Option<int> {
    var t := Strip(text);
    if t == [] then None
    else
      var digits := ParseDigits(if t[0] == DASH || t[0] == PLUS then t[1..] else t);
      if digits.None? then None
      else Some(if t[0] == DASH then 0 - digits.value else digits.value)
  }

  lemma {:induction false} DigitsRoundTrip(n: nat)
    ensures ParseDigits(Decimal(n)) == Some(n)
  {
    if n >= 10 {
      DigitsRoundTrip(n / 10);
      var text := Decimal(n);
      assert IsDigit(text[|text| - 2]);
      assert text[..|text| - 1] == Decimal(n / 10);
    }
  }

  /** A number reads back as it was written, negative ones included. */
  lemma DecimalRoundTrip(n: int)
    ensures ParseInt(SignedDecimal(n)) == Some(n)
  {
    hide Decimal, ParseDigits;
    var digits := Decimal(if n < 0 then -n else n);
    DigitsRoundTrip(if n < 0 then -n else n);
    assert IsDigit(digits[0]) && IsDigit(digits[|digits| - 1]);
    assert n < 0 ==> SignedDecimal(n)[1..] == digits;
  }

  // -------------------------------------------------------------------------
  // Frames, and the parser
  // -------------------------------------------------------------------------

  datatype Frame = Frame(fileno: int, data: seq<byte>)

  function FileByte(fileno: int): byte
    requires -1 <= fileno <= 9
  {
    if fileno == -1 then DASH else (48 + fileno) as byte
  }

  predicate IsFrame(frame: Frame) {
    -1 <= frame.fileno <= 9 && frame.data != []
  }

  function Encode(frame: Frame): seq<byte>
    requires IsFrame(frame)
  {
    [FileByte(frame.fileno), SPACE] + Decimal(|frame.data|) + [SPACE] + frame.data
  }

  function EncodeAll(frames: seq<Frame>): seq<byte>
    requires forall k :: 0 <= k < |frames| ==> IsFrame(frames[k])
  {
    if frames == [] then [] else EncodeAll(frames[..|frames| - 1]) + Encode(frames[|frames| - 1])
  }

  /** `Broken`: a stream number or a length could not be read. */
  datatype Parser =
    | AtStart
    | AtFirstSpace(fileno: int)
    | InLength(fileno: int, digits: seq<byte>)
    | InContent(fileno: int, length: int, data: seq<byte>)
    | Broken

  function Step(p: Parser, b: byte): (Parser, seq<Frame>) {
    match p
    case AtStart =>
      if b == DASH then (AtFirstSpace(-1), [])
      else if IsDigit(b) then (AtFirstSpace((b - 48) as int), [])
      else (Broken, [])
    case AtFirstSpace(fileno) => (InLength(fileno, []), [])
    case InLength(fileno, digits) =>
      if b != SPACE then (InLength(fileno, digits + [b]), [])
      else
        (match ParseInt(digits)
         case None => (Broken, [])
         case Some(length) => (if length == 0 then AtStart else InContent(fileno, length, []), []))
    case InContent(fileno, length, data) =>
      if |data| + 1 == length then (AtStart, [Frame(fileno, data + [b])])
      else (InContent(fileno, length, data + [b]), [])
    case Broken => (Broken, [])
  }

  function Parse(p: Parser, bytes: seq<byte>): (Parser, seq<Frame>) {
    if bytes == [] then (p, [])
    else
      var (q, frames) := Parse(p, bytes[..|bytes| - 1]);
      var (r, more) := Step(q, bytes[|bytes| - 1]);
      (r, frames + more)
  }

  /** The loop that takes the stream apart, one byte at a time. */
  method IterStreams(bytes: seq<byte>) returns (frames: seq<Frame>, failed: bool)
    ensures frames == Parse(AtStart, bytes).1
    ensures failed <==> Parse(AtStart, bytes).0.Broken?
  {
    frames, failed := [], false;
    var state := 0;
    var fileno, length, data, digits := 0, 0, [], [];
    var k := 0;
    while k < |bytes| && !failed
      invariant 0 <= k <= |bytes| && 0 <= state <= 3
      invariant frames == Parse(AtStart, bytes[..k]).1
      invariant Parse(AtStart, bytes[..k]).0
             == if failed then Broken
                else if state == 0 then AtStart
                else if state == 1 then AtFirstSpace(fileno)
                else if state == 2 then InLength(fileno, digits)
                else InContent(fileno, length, data)
      invariant state != 3 ==> data == []
      invariant state != 2 ==> digits == []
    {
      var b := bytes[k];
      assert bytes[..k + 1][..k] == bytes[..k];
      if state == 0 {
        if b == DASH {
          fileno := -1;
          state := 1;
        } else if IsDigit(b) {
          fileno := (b - 48) as int;
          state := 1;
        } else {
          failed := true;
        }
      } else if state == 1 {
        state := 2;
      } else if state == 2 {
        if b == SPACE {
          var parsed := ParseInt(digits);
          digits := [];
          if parsed.None? {
            failed := true;
          } else {
            length := parsed.value;
            state := if length == 0 then 0 else 3;
          }
        } else {
          digits := digits + [b];
        }
      } else {
        data := data + [b];
        if |data| == length {
          frames := frames + [Frame(fileno, data)];
          data := [];
          state := 0;
        }
      }
      k := k + 1;
    }
    if failed {
      StaysBroken(bytes, k);
    }
    assert bytes[..|bytes|] == bytes;
  }

  lemma {:induction false} StaysBroken(bytes: seq<byte>, k: nat)
    requires k <= |bytes| && Parse(AtStart, bytes[..k]).0.Broken?
    ensures Parse(AtStart, bytes) == Parse(AtStart, bytes[..k])
  {
    if k == |bytes| {
      assert bytes[..k] == bytes;
    } else {
      var before := bytes[..|bytes| - 1];
      assert before[..k] == bytes[..k];
      StaysBroken(before, k);
      assert Parse(AtStart, before).1 + [] == Parse(AtStart, before).1;
    }
  }

  lemma {:induction false} ParseConcat(p: Parser, a: seq<byte>, b: seq<byte>)
    ensures var (q, frames) := Parse(p, a);
            var (r, more) := Parse(q, b);
            Parse(p, a + b) == (r, frames + more)
  {
    var (q, frames) := Parse(p, a);
    if b == [] {
      assert a + b == a && frames + [] == frames;
    } else {
      var before := b[..|b| - 1];
      assert (a + b)[..|a + b| - 1] == a + before;
      ParseConcat(p, a, before);
      var (r, more) := Parse(q, before);
      var last := Step(r, b[|b| - 1]).1;
      assert (frames + more) + last == frames + (more + last);
    }
  }

  lemma NoneBefore(frames: seq<Frame>)
    ensures [] + frames == frames
  {
  }

  lemma {:induction false} ParseLength(fileno: int, digits: seq<byte>)
    requires forall k :: 0 <= k < |digits| ==> IsDigit(digits[k])
    ensures Parse(InLength(fileno, []), digits) == (InLength(fileno, digits), [])
  {
    if digits != [] {
      ParseLength(fileno, digits[..|digits| - 1]);
      assert digits[..|digits| - 1] + [digits[|digits| - 1]] == digits;
      assert IsDigit(digits[|digits| - 1]);
      NoneBefore([]);
    }
  }

  lemma {:induction false} ParseContent(fileno: int, data: seq<byte>, length: nat)
    requires |data| <= length && length > 0
    ensures Parse(InContent(fileno, length, []), data)
         == if |data| < length then (InContent(fileno, length, data), []) else (AtStart, [Frame(fileno, data)])
  {
    if data != [] {
      ParseContent(fileno, data[..|data| - 1], length);
      assert data[..|data| - 1] + [data[|data| - 1]] == data;
      NoneBefore([]);
      NoneBefore([Frame(fileno, data)]);
    }
  }

  lemma ParseOne(p: Parser, b: byte)
    ensures Parse(p, [b]) == Step(p, b)
  {
    assert [b][..0] == [];
    assert Parse(p, []) == (p, []);
    assert [] + Step(p, b).1 == Step(p, b).1;
  }

  /** One byte more, when what came before gave no frame. */
  lemma ParseMore(p: Parser, a: seq<byte>, q: Parser, b: byte)
    requires Parse(p, a) == (q, [])
    ensures Parse(p, a + [b]) == Step(q, b)
  {
    ParseConcat(p, a, [b]);
    ParseOne(q, b);
    assert [] + Step(q, b).1 == Step(q, b).1;
  }

  lemma ParseHeader(fileno: int, length: nat)
    requires -1 <= fileno <= 9 && length > 0
    ensures Parse(AtStart, [FileByte(fileno), SPACE] + Decimal(length) + [SPACE]) == (InContent(fileno, length, []), [])
  {
    var digits := Decimal(length);
    ParseOne(AtStart, FileByte(fileno));
    ParseMore(AtStart, [FileByte(fileno)], AtFirstSpace(fileno), SPACE);
    assert [FileByte(fileno)] + [SPACE] == [FileByte(fileno), SPACE];
    ParseLength(fileno, digits);
    ParseConcat(AtStart, [FileByte(fileno), SPACE], digits);
    DecimalRoundTrip(length);
    ParseMore(AtStart, [FileByte(fileno), SPACE] + digits, InLength(fileno, digits), SPACE);
  }

  /** A frame comes back as it was sent. */
  lemma FrameRoundTrip(frame: Frame)
    requires IsFrame(frame)
    ensures Parse(AtStart, Encode(frame)) == (AtStart, [frame])
  {
    ParseHeader(frame.fileno, |frame.data|);
    ParseContent(frame.fileno, frame.data, |frame.data|);
    ParseConcat(AtStart, [FileByte(frame.fileno), SPACE] + Decimal(|frame.data|) + [SPACE], frame.data);
    NoneBefore([frame]);
  }

  lemma {:induction false} FramesRoundTrip(frames: seq<Frame>)
    requires forall k :: 0 <= k < |frames| ==> IsFrame(frames[k])
    ensures Parse(AtStart, EncodeAll(frames)) == (AtStart, frames)
  {
    hide Encode, Decimal, Step, ParseInt;
    if frames != [] {
      var last := frames[|frames| - 1];
      FramesRoundTrip(frames[..|frames| - 1]);
      FrameRoundTrip(last);
      ParseConcat(AtStart, EncodeAll(frames[..|frames| - 1]), Encode(last));
      assert frames[..|frames| - 1] + [last] == frames;
    }
  }

  // -------------------------------------------------------------------------
  // Lines
  // -------------------------------------------------------------------------

  function FirstNewline(s: seq<byte>): (k: nat)
    ensures k <= |s|
    ensures k < |s| ==> s[k] == NEWLINE
    ensures forall j :: 0 <= j < k ==> s[j] != NEWLINE
  {
    if s == [] || s[0] == NEWLINE then 0 else FirstNewline(s[1..]) + 1
  }

  /** The lines of a text, each with its newline; the last may have none. */
  function Lines(s: seq<byte>): seq<seq<byte>> {
    if s == [] then []
    else
      var k := FirstNewline(s);
      if k == |s| then [s] else [s[..k + 1]] + Lines(s[k + 1..])
  }

  predicate IsLine(line: seq<byte>) {
    line != [] && line[|line| - 1] == NEWLINE && forall k :: 0 <= k < |line| - 1 ==> line[k] != NEWLINE
  }

  predicate AllLines(lines: seq<seq<byte>>) {
    forall k :: 0 <= k < |lines| ==> IsLine(lines[k])
  }

  function Join(parts: seq<seq<byte>>): seq<byte> {
    if parts == [] then [] else Join(parts[..|parts| - 1]) + parts[|parts| - 1]
  }

  lemma JoinAppend(parts: seq<seq<byte>>, part: seq<byte>)
    ensures Join(parts + [part]) == Join(parts) + part
  {
    assert (parts + [part])[..|parts|] == parts;
  }

  lemma Regroup<T>(a: seq<T>, b: seq<T>, c: seq<T>)
    ensures (a + b) + c == a + (b + c)
  {
  }

  /** A line and what follows it. */
  lemma LineFirst(line: seq<byte>, rest: seq<byte>)
    requires IsLine(line)
    ensures Lines(line + rest) == [line] + Lines(rest)
  {
    var text := line + rest;
    assert forall j :: 0 <= j < |line| ==> text[j] == line[j];
    assert FirstNewline(text) == |line| - 1;
    assert text[..|line|] == line && text[|line|..] == rest;
    if rest == [] {
      assert [line] + Lines(rest) == [line];
    }
  }

  lemma CutIsLine(s: seq<byte>)
    requires FirstNewline(s) < |s|
    ensures IsLine(s[..FirstNewline(s) + 1]) && s == s[..FirstNewline(s) + 1] + s[FirstNewline(s) + 1..]
  {
    CutAt(s, FirstNewline(s));
  }

  lemma CutAt(s: seq<byte>, k: nat)
    requires k < |s| && s[k] == NEWLINE && forall j :: 0 <= j < k ==> s[j] != NEWLINE
    ensures IsLine(s[..k + 1]) && s == s[..k + 1] + s[k + 1..]
  {
    var line := s[..k + 1];
    assert |line| == k + 1 && line[k] == s[k];
    assert forall j :: 0 <= j < k ==> line[j] == s[j];
  }

  /** Lines that have been cut off are the first lines of the whole. */
  lemma {:induction false} LinesOf(lines: seq<seq<byte>>, rest: seq<byte>)
    requires AllLines(lines)
    ensures Lines(Join(lines) + rest) == lines + Lines(rest)
  {
    if lines == [] {
      assert Join(lines) + rest == rest;
    } else {
      var line := lines[|lines| - 1];
      var before := lines[..|lines| - 1];
      LinesOf(before, line + rest);
      LineFirst(line, rest);
      hide *;
      assert lines == before + [line];
      JoinAppend(before, line);
      Regroup(Join(before), line, rest);
      Regroup(before, [line], Lines(rest));
    }
  }

  // -------------------------------------------------------------------------
  // The producer
  // -------------------------------------------------------------------------

  /** What one turn of the loop reads; nothing where there was nothing to read. */
  datatype Round = Round(out: seq<byte>, err: seq<byte>)

  function Part(frame: Frame, fileno: int): seq<seq<byte>> {
    if frame.fileno == fileno then [frame.data] else []
  }

  /** What was sent for one stream, frame by frame. */
  function PayloadsOf(frames: seq<Frame>, fileno: int): seq<seq<byte>> {
    if frames == [] then []
    else PayloadsOf(frames[..|frames| - 1], fileno) + Part(frames[|frames| - 1], fileno)
  }

  lemma PayloadsAfter(frames: seq<Frame>, frame: Frame, fileno: int)
    ensures PayloadsOf(frames + [frame], fileno) == PayloadsOf(frames, fileno) + Part(frame, fileno)
  {
    assert (frames + [frame])[..|frames|] == frames;
  }

  ghost predicate AllFrames(frames: seq<Frame>) {
    forall k :: 0 <= k < |frames| ==> IsFrame(frames[k]) && (frames[k].fileno == 1 || frames[k].fileno == 2)
  }

  /** The yielded chunks are the frames, encoded. */
  ghost predicate Yields(yielded: seq<seq<byte>>, frames: seq<Frame>) {
    && |yielded| == |frames|
    && forall k :: 0 <= k < |frames| ==> IsFrame(frames[k]) && yielded[k] == Encode(frames[k])
  }

  lemma {:induction false} YieldsJoin(yielded: seq<seq<byte>>, frames: seq<Frame>)
    requires Yields(yielded, frames)
    ensures Join(yielded) == EncodeAll(frames)
  {
    if frames != [] {
      YieldsJoin(yielded[..|yielded| - 1], frames[..|frames| - 1]);
    }
  }

  method FlushBuffer(buffer: seq<byte>, fileno: int) returns (message: seq<byte>)
    requires buffer != [] && (fileno == 1 || fileno == 2)
    ensures message == Encode(Frame(fileno, buffer))
  {
    message := [FileByte(fileno), SPACE] + Decimal(|buffer|) + [SPACE] + buffer;
  }

  /** All that was read from a stream is on its way in whole lines, but for what the buffer holds. */
  ghost predicate Sent(frames: seq<Frame>, fileno: int, buffer: seq<byte>, read: seq<byte>) {
    && AllLines(PayloadsOf(frames, fileno))
    && Join(PayloadsOf(frames, fileno)) + buffer == read
  }

  lemma AllLinesAppend(lines: seq<seq<byte>>, line: seq<byte>)
    requires AllLines(lines) && IsLine(line)
    ensures AllLines(lines + [line])
  {
    hide IsLine;
  }

  lemma SentLine(frames: seq<Frame>, fileno: int, line: seq<byte>, rest: seq<byte>, read: seq<byte>)
    requires Sent(frames, fileno, line + rest, read) && IsLine(line)
    ensures Sent(frames + [Frame(fileno, line)], fileno, rest, read)
  {
    var payloads := PayloadsOf(frames, fileno);
    PayloadsAfter(frames, Frame(fileno, line), fileno);
    hide IsLine, PayloadsOf, Join, AllLines;
    AllLinesAppend(payloads, line);
    JoinAppend(payloads, line);
    Regroup(Join(payloads), line, rest);
  }

  lemma SentOther(frames: seq<Frame>, frame: Frame, fileno: int, buffer: seq<byte>, read: seq<byte>)
    requires Sent(frames, fileno, buffer, read) && frame.fileno != fileno
    ensures Sent(frames + [frame], fileno, buffer, read)
  {
    PayloadsAfter(frames, frame, fileno);
    assert PayloadsOf(frames, fileno) + [] == PayloadsOf(frames, fileno);
  }

  /** Sends the complete lines of one stream; the rest stays in the buffer. */
  method FlushLines(buffer: seq<byte>, fileno: int, yielded: seq<seq<byte>>, ghost frames: seq<Frame>,
                    ghost read: seq<byte>, ghost other: seq<byte>, ghost otherRead: seq<byte>)
    returns (rest: seq<byte>, more: seq<seq<byte>>, ghost sent: seq<Frame>)
    requires (fileno == 1 || fileno == 2) && AllFrames(frames) && Yields(yielded, frames)
    requires Sent(frames, fileno, buffer, read) && Sent(frames, 3 - fileno, other, otherRead)
    ensures AllFrames(sent) && Yields(more, sent)
    ensures Sent(sent, fileno, rest, read) && Sent(sent, 3 - fileno, other, otherRead)
    ensures FirstNewline(rest) == |rest|
  {
    hide Sent, IsLine;
    rest, more, sent := buffer, yielded, frames;
    while FirstNewline(rest) < |rest|
      invariant AllFrames(sent) && Yields(more, sent)
      invariant Sent(sent, fileno, rest, read) && Sent(sent, 3 - fileno, other, otherRead)
      decreases |rest|
    {
      var k := FirstNewline(rest) + 1;
      var message := FlushBuffer(rest[..k], fileno);
      CutIsLine(rest);
      SentLine(sent, fileno, rest[..k], rest[k..], read);
      SentOther(sent, Frame(fileno, rest[..k]), 3 - fileno, other, otherRead);
      more, sent := more + [message], sent + [Frame(fileno, rest[..k])];
      rest := rest[k..];
    }
  }

  function OutOf(rounds: seq<Round>): seq<byte> {
    if rounds == [] then [] else OutOf(rounds[..|rounds| - 1]) + rounds[|rounds| - 1].out
  }

  function ErrOf(rounds: seq<Round>): seq<byte> {
    if rounds == [] then [] else ErrOf(rounds[..|rounds| - 1]) + rounds[|rounds| - 1].err
  }

  lemma SentChunk(frames: seq<Frame>, fileno: int, buffer: seq<byte>, read: seq<byte>, chunk: seq<byte>)
    requires Sent(frames, fileno, buffer, read)
    ensures Sent(frames, fileno, buffer + chunk, read + chunk)
  {
    hide PayloadsOf, Join, AllLines;
    Regroup(Join(PayloadsOf(frames, fileno)), buffer, chunk);
  }

  /** Everything has been sent, line by line. */
  ghost predicate Complete(frames: seq<Frame>, fileno: int, read: seq<byte>) {
    PayloadsOf(frames, fileno) == Lines(read)
  }

  /** The partial line at the end goes out as it is. */
  lemma SentAll(frames: seq<Frame>, fileno: int, buffer: seq<byte>, read: seq<byte>)
    requires Sent(frames, fileno, buffer, read) && FirstNewline(buffer) == |buffer|
    ensures buffer == [] ==> Complete(frames, fileno, read)
    ensures buffer != [] ==> Complete(frames + [Frame(fileno, buffer)], fileno, read)
  {
    LinesOf(PayloadsOf(frames, fileno), buffer);
    PayloadsAfter(frames, Frame(fileno, buffer), fileno);
    hide PayloadsOf, Join, AllLines;
    assert Lines(buffer) == if buffer == [] then [] else [buffer];
    assert PayloadsOf(frames, fileno) + [] == PayloadsOf(frames, fileno);
  }

  lemma CompleteStays(frames: seq<Frame>, frame: Frame, fileno: int, read: seq<byte>)
    requires Complete(frames, fileno, read) && frame.fileno != fileno
    ensures Complete(frames + [frame], fileno, read)
  {
    PayloadsAfter(frames, frame, fileno);
    assert PayloadsOf(frames, fileno) + [] == PayloadsOf(frames, fileno);
  }

  method FlushRest(buffer: seq<byte>, fileno: int, yielded: seq<seq<byte>>, ghost frames: seq<Frame>)
    returns (more: seq<seq<byte>>, ghost sent: seq<Frame>)
    requires (fileno == 1 || fileno == 2) && AllFrames(frames) && Yields(yielded, frames)
    ensures sent == if buffer == [] then frames else frames + [Frame(fileno, buffer)]
    ensures AllFrames(sent) && Yields(more, sent)
  {
    more, sent := yielded, frames;
    if buffer != [] {
      var message := FlushBuffer(buffer, fileno);
      more, sent := more + [message], sent + [Frame(fileno, buffer)];
    }
  }

  /** The frames of a whole run: those of the two streams, line by line, and one exit code at the end. */
  ghost predicate IsRun(frames: seq<Frame>, out: seq<byte>, err: seq<byte>, code: int) {
    && |frames| > 0
    && frames[|frames| - 1] == Frame(-1, SignedDecimal(code))
    && AllFrames(frames[..|frames| - 1])
    && PayloadsOf(frames, 1) == Lines(out)
    && PayloadsOf(frames, 2) == Lines(err)
  }

  /**
    Reads both streams as they come until the process has ended, then what is
    left in them, and yields messages.  However the reads fell, what the parser
    makes of the messages is the lines of each stream, and then the exit code.
  */
  method IterContent(rounds: seq<Round>, outDrain: seq<seq<byte>>, errDrain: seq<seq<byte>>, code: int)
    returns (yielded: seq<seq<byte>>)
    ensures Parse(AtStart, Join(yielded)).0 == AtStart
    ensures IsRun(Parse(AtStart, Join(yielded)).1, OutOf(rounds) + Join(outDrain), ErrOf(rounds) + Join(errDrain), code)
  {
    ghost var frames := [];
    yielded := [];
    var outBuffer, errBuffer := [], [];
    var k := 0;
    assert Sent([], 1, [], []) && Sent([], 2, [], []);
    while k < |rounds|
      invariant 0 <= k <= |rounds|
      invariant AllFrames(frames) && Yields(yielded, frames)
      invariant Sent(frames, 1, outBuffer, OutOf(rounds[..k])) && Sent(frames, 2, errBuffer, ErrOf(rounds[..k]))
    {
      hide Sent, Yields, AllFrames;
      assert rounds[..k + 1][..k] == rounds[..k];
      SentChunk(frames, 1, outBuffer, OutOf(rounds[..k]), rounds[k].out);
      outBuffer, yielded, frames := FlushLines(outBuffer + rounds[k].out, 1, yielded, frames,
        OutOf(rounds[..k + 1]), errBuffer, ErrOf(rounds[..k]));
      SentChunk(frames, 2, errBuffer, ErrOf(rounds[..k]), rounds[k].err);
      errBuffer, yielded, frames := FlushLines(errBuffer + rounds[k].err, 2, yielded, frames,
        ErrOf(rounds[..k + 1]), outBuffer, OutOf(rounds[..k + 1]));
      k := k + 1;
    }
    assert rounds[..k] == rounds;
    ghost var out := OutOf(rounds) + Join(outDrain);
    ghost var err := ErrOf(rounds) + Join(errDrain);
    outBuffer := Drain(outBuffer, outDrain, 1, frames, OutOf(rounds));
    errBuffer := Drain(errBuffer, errDrain, 2, frames, ErrOf(rounds));
    hide *;
    outBuffer, yielded, frames := FlushLines(outBuffer, 1, yielded, frames, out, errBuffer, err);
    errBuffer, yielded, frames := FlushLines(errBuffer, 2, yielded, frames, err, outBuffer, out);
    yielded, frames := Finish(outBuffer, errBuffer, yielded, frames, out, err, code);
    YieldsParse(yielded, frames);
  }

  lemma YieldsParse(yielded: seq<seq<byte>>, frames: seq<Frame>)
    requires Yields(yielded, frames)
    ensures Parse(AtStart, Join(yielded)) == (AtStart, frames)
  {
    YieldsJoin(yielded, frames);
    FramesRoundTrip(frames);
  }

  method Drain(buffer: seq<byte>, chunks: seq<seq<byte>>, ghost fileno: int, ghost frames: seq<Frame>, ghost read: seq<byte>)
    returns (all: seq<byte>)
    requires Sent(frames, fileno, buffer, read)
    ensures Sent(frames, fileno, all, read + Join(chunks))
  {
    hide Sent;
    all := buffer;
    assert read + Join([]) == read;
    for k := 0 to |chunks|
      invariant Sent(frames, fileno, all, read + Join(chunks[..k]))
    {
      SentChunk(frames, fileno, all, read + Join(chunks[..k]), chunks[k]);
      assert chunks[..k + 1] == chunks[..k] + [chunks[k]];
      JoinAppend(chunks[..k], chunks[k]);
      Regroup(read, Join(chunks[..k]), chunks[k]);
      all := all + chunks[k];
    }
    assert chunks[..|chunks|] == chunks;
  }

  /** What is left of the two streams, and the exit code. */
  method Finish(outBuffer: seq<byte>, errBuffer: seq<byte>, yielded: seq<seq<byte>>, ghost frames: seq<Frame>,
                ghost out: seq<byte>, ghost err: seq<byte>, code: int)
    returns (more: seq<seq<byte>>, ghost sent: seq<Frame>)
    requires AllFrames(frames) && Yields(yielded, frames)
    requires Sent(frames, 1, outBuffer, out) && Sent(frames, 2, errBuffer, err)
    requires FirstNewline(outBuffer) == |outBuffer| && FirstNewline(errBuffer) == |errBuffer|
    ensures Yields(more, sent) && IsRun(sent, out, err, code)
  {
    hide Sent, Complete;
    SentAll(frames, 1, outBuffer, out);
    if outBuffer != [] {
      SentOther(frames, Frame(1, outBuffer), 2, errBuffer, err);
    }
    more, sent := FlushRest(outBuffer, 1, yielded, frames);
    SentAll(sent, 2, errBuffer, err);
    if errBuffer != [] {
      CompleteStays(sent, Frame(2, errBuffer), 1, out);
    }
    more, sent := FlushRest(errBuffer, 2, more, sent);
    var last := Frame(-1, SignedDecimal(code));
    CompleteStays(sent, last, 1, out);
    CompleteStays(sent, last, 2, err);
    more := more + [[DASH, SPACE] + Decimal(|last.data|) + [SPACE] + last.data];
    assert (sent + [last])[..|sent|] == sent;
    sent := sent + [last];
    assert IsRun(sent, out, err, code) by {
      hide AllFrames;
      assert Complete(sent, 1, out) && Complete(sent, 2, err);
      CompleteMeans(sent, 1, out);
      CompleteMeans(sent, 2, err);
    }
  }

  lemma CompleteMeans(frames: seq<Frame>, fileno: int, read: seq<byte>)
    requires Complete(frames, fileno, read)
    ensures PayloadsOf(frames, fileno) == Lines(read)
  {
  }

  lemma {:induction false} JoinLines(s: seq<byte>)
    ensures Join(Lines(s)) == s
    decreases |s|
  {
    var k := FirstNewline(s);
    if k < |s| {
      var line, rest := s[..k + 1], s[k + 1..];
      CutIsLine(s);
      JoinLines(rest);
      hide FirstNewline, IsLine;
      LineFirst(line, rest);
      hide Lines, Join;
      JoinFirst(line, Lines(rest));
    } else if s != [] {
      JoinAppend([], s);
      assert [] + [s] == [s];
    }
  }

  lemma {:induction false} JoinFirst(part: seq<byte>, parts: seq<seq<byte>>)
    ensures Join([part] + parts) == part + Join(parts)
  {
    if parts == [] {
      JoinAppend([], part);
      assert [] + [part] == [part] + parts;
    } else {
      var before, last := parts[..|parts| - 1], parts[|parts| - 1];
      JoinFirst(part, before);
      assert [part] + parts == ([part] + before) + [last] && parts == before + [last];
      JoinAppend([part] + before, last);
      JoinAppend(before, last);
      Regroup(part, Join(before), last);
    }
  }

  /** In such a run each stream's payloads join to what was read from it, and the exit code comes once, at the end. */
  lemma NothingIsLost(frames: seq<Frame>, out: seq<byte>, err: seq<byte>, code: int)
    requires IsRun(frames, out, err, code)
    ensures Join(PayloadsOf(frames, 1)) == out && Join(PayloadsOf(frames, 2)) == err
    ensures forall k :: 0 <= k < |frames| ==> (frames[k].fileno == -1 <==> k == |frames| - 1)
  {
    JoinLines(out);
    JoinLines(err);
    var before := frames[..|frames| - 1];
    forall k | 0 <= k < |before|
      ensures frames[k].fileno != -1
    {
      assert before[k] == frames[k];
    }
  }
}
