/**
  HDLC framing: a byte-stuffing encoder, and a decoder that takes one byte at a
  time and finds its way back into step after any noise.
*/
module Hdlc {
  import opened Crc

  const FLAG: byte := 0x7E
  const ESCAPE: byte := 0x7D
  const INVERT: byte := 0x20

  /** What the decoder reports: a frame whose check bytes match, or one whose do not. */
  datatype Event = Delivered(payload: seq<byte>) | Failed(payload: seq<byte>)

  // -------------------------------------------------------------------------
  // Encoding
  // -------------------------------------------------------------------------

  predicate Special(b: byte) {
    b == FLAG || b == ESCAPE
  }

  function StuffByte(b: byte): seq<byte> {
    if Special(b) then [ESCAPE, b ^ INVERT] else [b]
  }

  function Stuff(data: seq<byte>): seq<byte> {
    if data == [] then [] else StuffByte(data[0]) + Stuff(data[1..])
  }

  function Encoded(payload: seq<byte>): seq<byte> {
    [FLAG] + Stuff(payload + CalcCRC(payload)) + [FLAG]
  }

  lemma StuffNext(data: seq<byte>, i: nat)
    requires i < |data|
    ensures Stuff(data[i..]) == StuffByte(data[i]) + Stuff(data[i + 1..])
  {
    assert data[i..][1..] == data[i + 1..];
  }

  lemma StuffNone(data: seq<byte>)
    requires data == []
    ensures Stuff(data) == []
  {
  }

  method Encode(payload: seq<byte>) returns (data: seq<byte>)
    ensures data == Encoded(payload)
  {
    data := [FLAG];
    var body := payload + CalcCRC(payload);
    hide CalcCRC, Stuff;
    assert body[0..] == body;
    for i := 0 to |body|
      invariant data + Stuff(body[i..]) == [FLAG] + Stuff(body)
    {
      StuffNext(body, i);
      if body[i] == FLAG || body[i] == ESCAPE {
        data := data + [ESCAPE];
        data := data + [body[i] ^ INVERT];
      } else {
        data := data + [body[i]];
      }
    }
    StuffNone(body[|body|..]);
    data := data + [FLAG];
  }

  // -------------------------------------------------------------------------
  // Decoding, as a step function
  // -------------------------------------------------------------------------

  /** Before a frame, or inside one with the bytes unstuffed so far. */
  datatype Decoder = Hunting | Inside(escaped: bool, data: seq<byte>)

  function Trailer(data: seq<byte>): seq<byte> {
    if |data| >= 2 then data[|data| - 2..] else data
  }

  function Body(data: seq<byte>): seq<byte> {
    if |data| >= 2 then data[..|data| - 2] else []
  }

  function Completed(data: seq<byte>): Event {
    if Trailer(data) == CalcCRC(Body(data)) then Delivered(Body(data)) else Failed(Body(data))
  }

  function Add(d: Decoder, b: byte): Decoder
    requires d.Inside?
  {
    if b == ESCAPE then Inside(true, d.data)
    else if d.escaped then Inside(false, d.data + [b ^ INVERT])
    else Inside(false, d.data + [b])
  }

  /** One byte: the decoder's next state, and what it reports. */
  function Step(d: Decoder, b: byte): (Decoder, seq<Event>) {
    if b == FLAG then
      if d.Hunting? || d.data == [] then (Inside(false, []), []) else (Hunting, [Completed(d.data)])
    else if d.Hunting? then (Hunting, [])
    else (Add(d, b), [])
  }

  function After(d: Decoder, data: seq<byte>): Decoder
    decreases |data|
  {
    if data == [] then d else After(Step(d, data[0]).0, data[1..])
  }

  function Reports(d: Decoder, data: seq<byte>): seq<Event>
    decreases |data|
  {
    if data == [] then [] else Step(d, data[0]).1 + Reports(Step(d, data[0]).0, data[1..])
  }

  // -------------------------------------------------------------------------
  // Decoding, as the objects of the code
  // -------------------------------------------------------------------------

  class Frame {
    var finished: bool
    var error: bool
    var escaped: bool
    var data: seq<byte>
    var crc: seq<byte>

    constructor ()
      ensures !finished && !error && !escaped && data == [] && crc == []
    {
      finished, error, escaped, data, crc := false, false, false, [], [];
    }

    method AddByte(b: byte)
      requires !finished
      modifies this`escaped, this`data
      ensures Inside(escaped, data) == Add(Inside(old(escaped), old(data)), b)
    {
      if b == ESCAPE {
        escaped := true;
      } else if escaped {
        escaped := false;
        data := data + [b ^ INVERT];
      } else {
        data := data + [b];
      }
    }

    method Finish()
      modifies this`crc, this`data, this`finished
      ensures crc == Trailer(old(data)) && data == Body(old(data)) && finished
    {
      crc := if |data| >= 2 then data[|data| - 2..] else data;
      data := if |data| >= 2 then data[..|data| - 2] else [];
      finished := true;
    }

    method CheckCRC()
      requires !error
      modifies this`error
      ensures error <==> crc != CalcCRC(data)
    {
      var expected := CalcCRC(data);
      if crc != expected {
        error := true;
      }
    }
  }

  /** The receiver.  `reported` stands for the two callbacks, in the order they are made. */
  class Receiver {
    var current: Frame?
    var reported: seq<Event>

    constructor ()
      ensures Valid() && View() == Hunting && reported == []
    {
      current := null;
      reported := [];
    }

    /** A frame that is finished is handed over within the same call. */
    predicate Valid()
      reads this, current
    {
      current != null ==> !current.finished && !current.error
    }

    function View(): Decoder
      reads this, current
    {
      if current == null then Hunting else Inside(current.escaped, current.data)
    }

    method ReadByte(b: byte) returns (ended: bool)
      requires Valid()
      modifies this, current
      ensures Valid() && (current != null && current != old(current) ==> fresh(current))
      ensures View() == Step(old(View()), b).0
      ensures reported == old(reported) + Step(old(View()), b).1
      ensures ended <==> Step(old(View()), b).1 != []
    {
      if b == FLAG {
        if current == null || |current.data| < 1 {
          current := new Frame();
        } else {
          current.Finish();
          current.CheckCRC();
        }
      } else if current == null {
        return false;
      } else if !current.finished {
        current.AddByte(b);
      }

      if current.finished && !current.error {
        reported := reported + [Delivered(current.data)];
        current := null;
        return true;
      } else if current.finished {
        reported := reported + [Failed(current.data)];
        current := null;
        return true;
      }
      ended := false;
    }
  }

  // -------------------------------------------------------------------------
  // Round trip
  // -------------------------------------------------------------------------

  lemma {:induction false} RunAppend(d: Decoder, a: seq<byte>, b: seq<byte>)
    ensures After(d, a + b) == After(After(d, a), b)
    ensures Reports(d, a + b) == Reports(d, a) + Reports(After(d, a), b)
    decreases |a|
  {
    hide Step;
    if a == [] {
      assert a + b == b;
    } else {
      assert (a + b)[1..] == a[1..] + b;
      RunAppend(Step(d, a[0]).0, a[1..], b);
    }
  }

  lemma RunOne(d: Decoder, b: byte)
    ensures After(d, [b]) == Step(d, b).0 && Reports(d, [b]) == Step(d, b).1
  {
    hide Step;
    assert [b][1..] == [];
    assert Step(d, b).1 + [] == Step(d, b).1;
  }

  lemma InvertTwice(b: byte)
    ensures (b ^ INVERT) ^ INVERT == b
    ensures Special(b) ==> !Special(b ^ INVERT)
  {
  }

  /** Unstuffing gives a stuffed byte back. */
  lemma StuffedByteUnstuffs(data: seq<byte>, b: byte)
    ensures After(Inside(false, data), StuffByte(b)) == Inside(false, data + [b])
    ensures Reports(Inside(false, data), StuffByte(b)) == []
  {
    InvertTwice(b);
    var start := Inside(false, data);
    if Special(b) {
      assert StuffByte(b) == [ESCAPE] + [b ^ INVERT];
      RunOne(start, ESCAPE);
      RunOne(Inside(true, data), b ^ INVERT);
      RunAppend(start, [ESCAPE], [b ^ INVERT]);
    } else {
      RunOne(start, b);
    }
  }

  lemma {:induction false} StuffingUnstuffs(data: seq<byte>, more: seq<byte>)
    ensures After(Inside(false, data), Stuff(more)) == Inside(false, data + more)
    ensures Reports(Inside(false, data), Stuff(more)) == []
    decreases |more|
  {
    hide StuffByte;
    if more == [] {
      assert data + more == data;
    } else {
      StuffedByteUnstuffs(data, more[0]);
      StuffingUnstuffs(data + [more[0]], more[1..]);
      RunAppend(Inside(false, data), StuffByte(more[0]), Stuff(more[1..]));
      assert data + [more[0]] + more[1..] == data + more;
    }
  }

  lemma {:induction false} StuffedHasNoFlag(data: seq<byte>)
    ensures FLAG !in Stuff(data)
  {
    if data != [] {
      InvertTwice(data[0]);
      StuffedHasNoFlag(data[1..]);
    }
  }

  lemma {:induction false} NoFlagIsIgnored(data: seq<byte>)
    requires FLAG !in data
    ensures After(Hunting, data) == Hunting && Reports(Hunting, data) == []
    decreases |data|
  {
    if data != [] {
      assert data[0] in data;
      NoFlagIsIgnored(data[1..]);
    }
  }

  /** Ready for the first flag of a frame. */
  predicate Ready(d: Decoder) {
    d.Hunting? || d.data == []
  }

  lemma CompletedSent(payload: seq<byte>)
    ensures Completed(payload + CalcCRC(payload)) == Delivered(payload)
  {
    hide CalcCRC;
    var data := payload + CalcCRC(payload);
    assert Body(data) == payload && Trailer(data) == CalcCRC(payload);
  }

  /** A frame's body and last flag, after its first. */
  lemma RunRest(started: Decoder, body: seq<byte>)
    ensures After(started, body + [FLAG]) == Step(After(started, body), FLAG).0
    ensures Reports(started, body + [FLAG]) == Reports(started, body) + Step(After(started, body), FLAG).1
  {
    hide Step;
    RunAppend(started, body, [FLAG]);
    RunOne(After(started, body), FLAG);
  }

  /** A frame's first flag, and what follows. */
  lemma RunFlag(d: Decoder, rest: seq<byte>)
    ensures After(d, [FLAG] + rest) == After(Step(d, FLAG).0, rest)
    ensures Reports(d, [FLAG] + rest) == Step(d, FLAG).1 + Reports(Step(d, FLAG).0, rest)
  {
    hide Step;
    RunAppend(d, [FLAG], rest);
    RunOne(d, FLAG);
  }

  lemma RunFrameReady(d: Decoder, payload: seq<byte>)
    requires Ready(d)
    ensures After(d, Encoded(payload)) == Hunting
    ensures Reports(d, Encoded(payload)) == [Delivered(payload)]
  {
    hide CalcCRC, Stuff, After, Reports, Completed;
    var sent := payload + CalcCRC(payload);
    assert Encoded(payload) == [FLAG] + (Stuff(sent) + [FLAG]);
    RunFlag(d, Stuff(sent) + [FLAG]);
    RunRest(Inside(false, []), Stuff(sent));
    StuffingUnstuffs([], sent);
    assert [] + sent == sent;
    CompletedSent(payload);
  }

  lemma RunFrameAstray(d: Decoder, payload: seq<byte>)
    requires !Ready(d)
    ensures After(d, Encoded(payload)) == Inside(false, [])
    ensures Reports(d, Encoded(payload)) == [Completed(d.data)]
  {
    hide CalcCRC, Stuff, After, Reports, Completed;
    var sent := payload + CalcCRC(payload);
    assert Encoded(payload) == [FLAG] + (Stuff(sent) + [FLAG]);
    RunFlag(d, Stuff(sent) + [FLAG]);
    RunRest(Hunting, Stuff(sent));
    StuffedHasNoFlag(sent);
    NoFlagIsIgnored(Stuff(sent));
  }

  function EncodedAll(payloads: seq<seq<byte>>): seq<byte> {
    if payloads == [] then [] else Encoded(payloads[0]) + EncodedAll(payloads[1..])
  }

  function DeliveredAll(payloads: seq<seq<byte>>): seq<Event> {
    if payloads == [] then [] else [Delivered(payloads[0])] + DeliveredAll(payloads[1..])
  }

  /** From a decoder that is ready, every frame is delivered, once and in order. */
  lemma {:induction false} RoundTrip(d: Decoder, payloads: seq<seq<byte>>)
    requires Ready(d)
    ensures Reports(d, EncodedAll(payloads)) == DeliveredAll(payloads)
    ensures Ready(After(d, EncodedAll(payloads)))
    decreases |payloads|
  {
    hide Encoded;
    if payloads != [] {
      RunFrameReady(d, payloads[0]);
      RoundTrip(Hunting, payloads[1..]);
      RunAppend(d, Encoded(payloads[0]), EncodedAll(payloads[1..]));
    }
  }

  /**
    Resynchronisation.  Whatever bytes came before, a first frame costs at most
    itself: it is delivered if the decoder was ready for it, and otherwise it
    completes what the noise had begun; every frame after it is delivered, once
    and in order, with nothing else reported.
  */
  lemma Resynchronises(noise: seq<byte>, first: seq<byte>, rest: seq<seq<byte>>)
    ensures var before := After(Hunting, noise);
            Reports(Hunting, noise + (Encoded(first) + EncodedAll(rest)))
            == Reports(Hunting, noise)
               + ([if Ready(before) then Delivered(first) else Completed(before.data)] + DeliveredAll(rest))
  {
    hide Encoded, EncodedAll, After, Reports, Completed;
    var before := After(Hunting, noise);
    RunAppend(Hunting, noise, Encoded(first) + EncodedAll(rest));
    RunAppend(before, Encoded(first), EncodedAll(rest));
    if Ready(before) {
      RunFrameReady(before, first);
    } else {
      RunFrameAstray(before, first);
    }
    RoundTrip(After(before, Encoded(first)), rest);
  }

  /** A frame in which a burst of up to sixteen bits was flipped is never delivered. */
  lemma DamagedFrameFails(payload: seq<byte>, error: seq<byte>, j: nat)
    requires |error| == |payload| + 2 && Burst(Bits(error), j)
    ensures Step(Inside(false, Corrupt(payload + CalcCRC(payload), error)), FLAG).1
            == [Failed(Corrupt(payload + CalcCRC(payload), error)[..|payload|])]
  {
    BurstIsDetected(payload, error, j);
  }
}
