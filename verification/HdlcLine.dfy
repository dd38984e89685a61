/**
  Errors on the line.  The check bytes are computed before stuffing, so that a
  burst is caught as long as it leaves flags and escapes alone; a single bit
  that turns a byte into a flag can pass.
*/
module HdlcLine {
  import opened Crc
  import opened Hdlc

  function Flip(b: byte, error: byte): byte {
    b ^ error
  }

  /** A byte that is damaged was no flag or escape, and is not one now. */
  predicate SameMark(b: byte, error: byte) {
    error != 0 ==> !Special(b) && !Special(Flip(b, error))
  }

  /** The damage makes no flag or escape, and breaks no escape. */
  ghost predicate KeepsMarks(line: seq<byte>, error: seq<byte>)
    requires |error| == |line|
  {
    forall i :: 0 <= i < |line| ==> SameMark(line[i], error[i])
  }

  /** The damage to each byte of the data, without what stuffing put between. */
  function Kept(data: seq<byte>, error: seq<byte>): (kept: seq<byte>)
    requires |error| == |Stuff(data)|
    ensures |kept| == |data|
    decreases |data|
  {
    if data == [] then []
    else
      var n := |StuffByte(data[0])|;
      [error[n - 1]] + Kept(data[1..], error[n..])
  }

  // -------------------------------------------------------------------------
  // What the decoder makes of a damaged line
  // -------------------------------------------------------------------------

  lemma FlipSpecial(b: byte, e0: byte, e1: byte)
    requires Special(b) && SameMark(ESCAPE, e0) && SameMark(Flip(b, INVERT), e1)
    ensures e0 == 0 && Flip(ESCAPE, e0) == ESCAPE
    ensures !Special(Flip(Flip(b, INVERT), e1))
    ensures Flip(Flip(Flip(b, INVERT), e1), INVERT) == Flip(b, e1)
  {
  }

  lemma FlipPlain(b: byte, error: byte)
    requires !Special(b) && SameMark(b, error)
    ensures !Special(Flip(b, error))
  {
  }

  lemma {:induction false} CorruptAppend(a: seq<byte>, b: seq<byte>, error: seq<byte>)
    requires |error| == |a + b|
    ensures Corrupt(a + b, error) == Corrupt(a, error[..|a|]) + Corrupt(b, error[|a|..])
  {
  }

  lemma CorruptOne(b: byte, error: byte)
    ensures Corrupt([b], [error]) == [Flip(b, error)]
  {
  }

  lemma CorruptTwo(b: byte, c: byte, error: seq<byte>)
    requires |error| == 2
    ensures Corrupt([b, c], error) == [Flip(b, error[0])] + [Flip(c, error[1])]
  {
  }

  lemma StuffedLength(b: byte)
    ensures 1 <= |StuffByte(b)| <= 2
  {
  }

  /** The first byte of the data, its part of the line, and what damage it keeps. */
  lemma StuffFirst(data: seq<byte>, error: seq<byte>)
    requires data != [] && |error| == |Stuff(data)|
    ensures var n := |StuffByte(data[0])|;
            && 1 <= n <= |error|
            && Stuff(data) == StuffByte(data[0]) + Stuff(data[1..])
            && Kept(data, error) == [error[n - 1]] + Kept(data[1..], error[n..])
  {
    hide StuffByte;
    StuffedLength(data[0]);
  }

  lemma StuffedSpecial(b: byte)
    requires Special(b)
    ensures StuffByte(b) == [ESCAPE, Flip(b, INVERT)]
  {
  }

  lemma StepPlain(data: seq<byte>, escaped: bool, b: byte)
    requires !Special(b)
    ensures Step(Inside(escaped, data), b) == (Inside(false, data + [if escaped then Flip(b, INVERT) else b]), [])
  {
  }

  lemma StepEscape(data: seq<byte>)
    ensures Step(Inside(false, data), ESCAPE) == (Inside(true, data), [])
  {
  }

  lemma DamagedByte(data: seq<byte>, b: byte, error: seq<byte>)
    requires |error| == |StuffByte(b)| && KeepsMarks(StuffByte(b), error)
    ensures After(Inside(false, data), Corrupt(StuffByte(b), error))
            == Inside(false, data + [Flip(b, error[|error| - 1])])
    ensures Reports(Inside(false, data), Corrupt(StuffByte(b), error)) == []
  {
    hide After, Reports, Step, Corrupt, SameMark, Flip;
    var start := Inside(false, data);
    assert SameMark(StuffByte(b)[0], error[0]);
    if Special(b) {
      hide Special;
      StuffedSpecial(b);
      assert SameMark(StuffByte(b)[1], error[1]);
      FlipSpecial(b, error[0], error[1]);
      var second := Flip(Flip(b, INVERT), error[1]);
      CorruptTwo(ESCAPE, Flip(b, INVERT), error);
      RunOne(start, ESCAPE);
      StepEscape(data);
      RunOne(Inside(true, data), second);
      StepPlain(data, true, second);
      RunAppend(start, [ESCAPE], [second]);
    } else {
      hide Special;
      FlipPlain(b, error[0]);
      assert error == [error[0]];
      CorruptOne(b, error[0]);
      RunOne(start, Flip(b, error[0]));
      StepPlain(data, false, Flip(b, error[0]));
    }
  }

  /** A line whose marks are kept unstuffs to the data with the damage that is left of it. */
  lemma {:induction false} DamagedLineUnstuffs(data: seq<byte>, more: seq<byte>, error: seq<byte>)
    requires |error| == |Stuff(more)| && KeepsMarks(Stuff(more), error)
    ensures After(Inside(false, data), Corrupt(Stuff(more), error)) == Inside(false, data + Corrupt(more, Kept(more, error)))
    ensures Reports(Inside(false, data), Corrupt(Stuff(more), error)) == []
    decreases |more|
  {
    hide *;
    var start := Inside(false, data);
    if more == [] {
      NoLine(more, error);
      NothingRun(start);
      assert data + [] == data;
    } else {
      StuffFirst(more, error);
      var first, rest := StuffByte(more[0]), Stuff(more[1..]);
      var n := |first|;
      KeptInParts(first, rest, error);
      CorruptAppend(first, rest, error);
      DamagedByte(data, more[0], error[..n]);
      var b, kept := Flip(more[0], error[n - 1]), Kept(more[1..], error[n..]);
      DamagedLineUnstuffs(data + [b], more[1..], error[n..]);
      RunAppend(start, Corrupt(first, error[..n]), Corrupt(rest, error[n..]));
      CorruptFirst(more, [error[n - 1]] + kept);
      assert data + [b] + Corrupt(more[1..], kept) == data + ([b] + Corrupt(more[1..], kept));
    }
  }

  lemma NoLine(data: seq<byte>, error: seq<byte>)
    requires data == [] && |error| == |Stuff(data)|
    ensures Corrupt(Stuff(data), error) == [] && Corrupt(data, Kept(data, error)) == []
  {
  }

  lemma CorruptFirst(data: seq<byte>, error: seq<byte>)
    requires |error| == |data| > 0
    ensures Corrupt(data, error) == [Flip(data[0], error[0])] + Corrupt(data[1..], error[1..])
  {
  }

  lemma NothingRun(d: Decoder)
    ensures After(d, []) == d && Reports(d, []) == []
  {
  }

  lemma KeptInParts(first: seq<byte>, rest: seq<byte>, error: seq<byte>)
    requires |error| == |first + rest| && KeepsMarks(first + rest, error)
    ensures KeepsMarks(first, error[..|first|]) && KeepsMarks(rest, error[|first|..])
  {
    hide SameMark;
    var line, n := first + rest, |first|;
    forall i | 0 <= i < |first| ensures SameMark(first[i], error[..n][i]) {
      assert SameMark(line[i], error[i]);
    }
    forall i | 0 <= i < |rest| ensures SameMark(rest[i], error[n..][i]) {
      assert SameMark(line[n + i], error[n + i]);
    }
  }

  // -------------------------------------------------------------------------
  // A burst stays a burst when the escapes are taken out of it
  // -------------------------------------------------------------------------

  lemma {:induction false} BitsAppend(a: seq<byte>, b: seq<byte>)
    ensures Bits(a + b) == Bits(a) + Bits(b)
    decreases |a|
  {
    hide High, TopBits;
    if a == [] {
      assert a + b == b;
    } else {
      assert (a + b)[1..] == a[1..] + b;
      BitsAppend(a[1..], b);
    }
  }

  lemma ZeroByteBits()
    ensures true !in Bits([0])
  {
    assert [0 as byte][1..] == [];
    ZeroBits(High(0), 8);
  }

  lemma {:induction false} ZeroBits(w: bv16, n: nat)
    requires w == 0
    ensures true !in TopBits(w, n)
    decreases n
  {
    if n > 0 {
      ZeroBits(Double(w), n - 1);
    }
  }

  lemma WithoutZeros(before: seq<bool>, zeros: seq<bool>, after: seq<bool>, j: nat) returns (k: nat)
    requires Burst(before + zeros + after, j) && true !in zeros
    ensures Burst(before + after, k)
  {
    var long, short, n := before + zeros + after, before + after, |zeros|;
    forall i | |before| <= i < |before| + n ensures !long[i] {
      assert long[i] == zeros[i - |before|];
    }
    k := if j < |before| then j else j - n;
    forall i | 0 <= i < |short| && short[i] ensures k <= i < k + 16 {
      var at := if i < |before| then i else i + n;
      assert long[at] == short[i];
    }
  }

  /** Taking the escape out of one byte's part of the line. */
  lemma BurstPastByte(before: seq<byte>, b: byte, error: seq<byte>, after: seq<byte>, j: nat) returns (k: nat)
    requires |error| == |StuffByte(b)| && KeepsMarks(StuffByte(b), error)
    requires Burst(Bits(before + error + after), j)
    ensures Burst(Bits(before + [error[|error| - 1]] + after), k)
  {
    hide *;
    StuffedLength(b);
    if |error| == 2 {
      EscapeIsKept(b, error);
      var last := [error[1]];
      assert before + error + after == (before + [0]) + (last + after);
      BitsAppend(before + [0], last + after);
      BitsAppend(before, [0]);
      ZeroByteBits();
      k := WithoutZeros(Bits(before), Bits([0]), Bits(last + after), j);
      BitsAppend(before, last + after);
      assert before + (last + after) == before + last + after;
    } else {
      assert error == [error[0]];
      k := j;
    }
  }

  lemma {:induction false} BurstIsKept(before: seq<byte>, data: seq<byte>, error: seq<byte>, j: nat) returns (k: nat)
    requires |error| == |Stuff(data)| && KeepsMarks(Stuff(data), error)
    requires Burst(Bits(before + error), j)
    ensures Burst(Bits(before + Kept(data, error)), k)
    decreases |data|
  {
    hide Burst, Bits, Special, StuffByte, KeepsMarks;
    if data == [] {
      assert error == Kept(data, error);
      k := j;
    } else {
      hide *;
      StuffFirst(data, error);
      var first, rest := StuffByte(data[0]), Stuff(data[1..]);
      var n := |first|;
      var last, after := [error[n - 1]], error[n..];
      KeptInParts(first, rest, error);
      assert before + error == before + error[..n] + after;
      k := BurstPastByte(before, data[0], error[..n], after, j);
      k := BurstIsKept(before + last, data[1..], after, k);
      assert before + last + Kept(data[1..], after) == before + (last + Kept(data[1..], after));
    }
  }

  lemma EscapeIsKept(b: byte, error: seq<byte>)
    requires |error| == |StuffByte(b)| == 2 && KeepsMarks(StuffByte(b), error)
    ensures error[0] == 0
  {
    assert SameMark(StuffByte(b)[0], error[0]);
    assert StuffByte(b)[0] == ESCAPE;
  }

  // -------------------------------------------------------------------------
  // What a burst on the line leads to
  // -------------------------------------------------------------------------

  /**
    A frame in which a burst of up to sixteen bits was flipped on the line, with
    every flag and escape left as it was, goes to the error callback, and to
    nothing else.
  */
  lemma DamagedLineFails(d: Decoder, payload: seq<byte>, error: seq<byte>, j: nat)
    requires Ready(d)
    requires |error| == |Stuff(payload + CalcCRC(payload))|
    requires KeepsMarks(Stuff(payload + CalcCRC(payload)), error) && Burst(Bits(error), j)
    ensures var sent := payload + CalcCRC(payload);
            var line := [FLAG] + Corrupt(Stuff(sent), error) + [FLAG];
            && After(d, line) == Hunting
            && Reports(d, line) == [Failed(Corrupt(sent, Kept(sent, error))[..|payload|])]
  {
    hide CalcCRC, Stuff, After, Reports, Burst, Bits, Special, StuffByte, KeepsMarks, Corrupt, Kept, Completed;
    var sent := payload + CalcCRC(payload);
    var damaged, kept := Corrupt(Stuff(sent), error), Kept(sent, error);
    assert [] + error == error && [] + kept == kept && [] + Corrupt(sent, kept) == Corrupt(sent, kept);
    var k := BurstIsKept([], sent, error, j);
    DamagedLineUnstuffs([], sent, error);
    DamagedFrameFails(payload, kept, k);
    assert [FLAG] + damaged + [FLAG] == [FLAG] + (damaged + [FLAG]);
    RunFlag(d, damaged + [FLAG]);
    RunRest(Inside(false, []), damaged);
  }

  /** A payload that begins with a whole frame's body, and goes on with a byte one bit from a flag. */
  function Nested(payload: seq<byte>): seq<byte> {
    payload + CalcCRC(payload) + [0x7F]
  }

  /** The line of `Nested(payload)`, with the lowest bit of that byte flipped. */
  function NestedDamaged(payload: seq<byte>): seq<byte> {
    [FLAG] + Stuff(payload + CalcCRC(payload)) + [FLAG] + Stuff(CalcCRC(Nested(payload))) + [FLAG]
  }

  lemma {:induction false} StuffAppend(a: seq<byte>, b: seq<byte>)
    ensures Stuff(a + b) == Stuff(a) + Stuff(b)
    decreases |a|
  {
    hide StuffByte;
    if a == [] {
      assert a + b == b;
    } else {
      assert (a + b)[1..] == a[1..] + b;
      StuffAppend(a[1..], b);
    }
  }

  lemma StuffNearFlag()
    ensures Stuff([0x7F]) == [0x7F]
    ensures 0x7F as byte ^ 0x01 == FLAG
  {
    assert [0x7F as byte][1..] == [];
  }

  /**
    One flipped bit that makes a flag: for any payload, the frame of `Nested(payload)`
    is then received as `payload`, which was not sent, and nothing is reported as wrong.
  */
  lemma FlippedFlagPasses(d: Decoder, payload: seq<byte>)
    requires Ready(d)
    ensures var at := 1 + |Stuff(payload + CalcCRC(payload))|;
            && at < |Encoded(Nested(payload))|
            && Encoded(Nested(payload))[at] == 0x7F
            && NestedDamaged(payload) == Encoded(Nested(payload))[at := 0x7F ^ 0x01]
    ensures Reports(d, NestedDamaged(payload)) == [Delivered(payload)]
  {
    hide CalcCRC, Stuff, StuffByte, After, Reports, Completed;
    var body, check := payload + CalcCRC(payload), CalcCRC(Nested(payload));
    StuffNearFlag();
    StuffAppend(body + [0x7F], check);
    StuffAppend(body, [0x7F]);
    assert NestedDamaged(payload) == Encoded(payload) + (Stuff(check) + [FLAG]);
    RunAppend(d, Encoded(payload), Stuff(check) + [FLAG]);
    RunFrameReady(d, payload);
    RunRest(Hunting, Stuff(check));
    StuffedHasNoFlag(check);
    NoFlagIsIgnored(Stuff(check));
  }
}
