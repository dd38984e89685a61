/**
  CRC-16/CCITT-FALSE over bytes: polynomial 0x1021, most significant bit first.

  The register step is linear and can be undone.  From these two facts follow
  the residue rule and the detection of every error burst of up to 16 bits.
*/
module Crc {
  type byte = bv8

  function Xor(a: bv16, b: bv16): bv16 {
    a ^ b
  }

  predicate Top(r: bv16) {
    r & 0x8000 != 0
  }

  function Double(r: bv16): bv16 {
    r << 1
  }

  /** One clock of the register. */
  function Shift(r: bv16): bv16 {
    if Top(r) then Xor(Double(r), 0x1021) else Double(r)
  }

  function ShiftN(r: bv16, n: nat): bv16
    decreases n
  {
    if n == 0 then r else ShiftN(Shift(r), n - 1)
  }

  /** A byte enters at the top of the register, which is then clocked eight times. */
  function FeedByte(r: bv16, b: byte): bv16 {
    ShiftN(Xor(r, High(b)), 8)
  }

  function High(b: byte): bv16 {
    b as bv16 << 8
  }

  function Low(b: byte): bv16 {
    b as bv16
  }

  function Feed(r: bv16, data: seq<byte>): bv16
    decreases |data|
  {
    if data == [] then r else Feed(FeedByte(r, data[0]), data[1..])
  }

  const INITIAL: bv16 := 0xFFFF

  /** The two check bytes, as they are sent: big-endian. */
  function Pack(crc: bv16): (check: seq<byte>)
    ensures |check| == 2 && Unpack(check[0], check[1]) == crc
  {
    [(crc >> 8) as byte, (crc & 0xFF) as byte]
  }

  function Unpack(hi: byte, lo: byte): bv16 {
    Xor(High(hi), Low(lo))
  }

  function CalcCRC(data: seq<byte>): (check: seq<byte>)
    ensures |check| == 2
  {
    Pack(Feed(INITIAL, data))
  }

  // -------------------------------------------------------------------------
  // Exclusive or
  // -------------------------------------------------------------------------

  lemma XorComm(a: bv16, b: bv16)
    ensures Xor(a, b) == Xor(b, a)
  {
  }

  lemma XorAssoc(a: bv16, b: bv16, c: bv16)
    ensures Xor(a, Xor(b, c)) == Xor(Xor(a, b), c)
  {
  }

  lemma XorExchange(a: bv16, b: bv16, c: bv16, d: bv16)
    ensures Xor(Xor(a, b), Xor(c, d)) == Xor(Xor(a, c), Xor(b, d))
  {
    hide Xor;
    XorAssoc(Xor(a, b), c, d);
    XorAssoc(a, b, c);
    XorComm(b, c);
    XorAssoc(a, c, b);
    XorAssoc(Xor(a, c), b, d);
  }

  lemma XorEqual(a: bv16, b: bv16)
    ensures Xor(a, b) == 0 <==> a == b
  {
  }

  lemma XorZero(a: bv16)
    ensures Xor(a, 0) == a && Xor(0, a) == a
  {
  }

  lemma HighXor(a: byte, b: byte)
    ensures High(a ^ b) == Xor(High(a), High(b))
  {
  }

  lemma PackUnpack(hi: byte, lo: byte)
    ensures Pack(Unpack(hi, lo)) == [hi, lo]
  {
  }

  // -------------------------------------------------------------------------
  // The register step is linear, and can be undone
  // -------------------------------------------------------------------------

  lemma DoubleXor(r: bv16, q: bv16)
    ensures Double(Xor(r, q)) == Xor(Double(r), Double(q))
  {
  }

  lemma TopXor(r: bv16, q: bv16)
    ensures Top(Xor(r, q)) <==> Top(r) != Top(q)
  {
  }

  lemma XorCancel(a: bv16, b: bv16, c: bv16)
    ensures Xor(Xor(a, c), Xor(b, c)) == Xor(a, b)
  {
    hide Xor;
    XorExchange(a, c, b, c);
    XorEqual(c, c);
    XorZero(Xor(a, b));
  }

  lemma ShiftLinear(r: bv16, q: bv16)
    ensures Shift(Xor(r, q)) == Xor(Shift(r), Shift(q))
  {
    hide Xor, Top, Double;
    DoubleXor(r, q);
    TopXor(r, q);
    var a, b, g: bv16 := Double(r), Double(q), 0x1021;
    XorCancel(a, b, g);
    XorAssoc(a, b, g);
    XorAssoc(a, g, b);
    XorComm(g, b);
  }

  lemma ShiftInjective(r: bv16)
    ensures Shift(r) == 0 <==> r == 0
  {
  }

  lemma {:induction false} ShiftNLinear(r: bv16, q: bv16, n: nat)
    ensures ShiftN(Xor(r, q), n) == Xor(ShiftN(r, n), ShiftN(q, n))
    decreases n
  {
    hide Shift, Xor;
    if n > 0 {
      ShiftLinear(r, q);
      ShiftNLinear(Shift(r), Shift(q), n - 1);
    }
  }

  lemma {:induction false} ShiftNInjective(r: bv16, n: nat)
    ensures ShiftN(r, n) == 0 <==> r == 0
    decreases n
  {
    hide Shift, Xor;
    if n > 0 {
      ShiftInjective(r);
      ShiftNInjective(Shift(r), n - 1);
    }
  }

  lemma {:induction false} ShiftNAdds(r: bv16, m: nat, n: nat)
    ensures ShiftN(r, m + n) == ShiftN(ShiftN(r, m), n)
    decreases m
  {
    hide Shift, Xor;
    if m > 0 {
      ShiftNAdds(Shift(r), m - 1, n);
    }
  }

  lemma FeedByteLinear(r: bv16, q: bv16, a: byte, b: byte)
    ensures FeedByte(Xor(r, q), a ^ b) == Xor(FeedByte(r, a), FeedByte(q, b))
  {
    hide Xor, High, ShiftN;
    HighXor(a, b);
    XorExchange(r, q, High(a), High(b));
    ShiftNLinear(Xor(r, High(a)), Xor(q, High(b)), 8);
  }

  /** The received bytes, where `error` has a one for every bit that was flipped. */
  function Corrupt(data: seq<byte>, error: seq<byte>): (r: seq<byte>)
    requires |error| == |data|
    ensures |r| == |data|
  {
    seq(|data|, i requires 0 <= i < |data| => data[i] ^ error[i])
  }

  lemma {:induction false} FeedLinear(r: bv16, q: bv16, data: seq<byte>, error: seq<byte>)
    requires |error| == |data|
    ensures Feed(Xor(r, q), Corrupt(data, error)) == Xor(Feed(r, data), Feed(q, error))
    decreases |data|
  {
    hide Xor, FeedByte;
    if data != [] {
      FeedByteLinear(r, q, data[0], error[0]);
      FeedLinear(FeedByte(r, data[0]), FeedByte(q, error[0]), data[1..], error[1..]);
      assert Corrupt(data, error)[1..] == Corrupt(data[1..], error[1..]);
    }
  }

  lemma {:induction false} FeedAppend(r: bv16, a: seq<byte>, b: seq<byte>)
    ensures Feed(r, a + b) == Feed(Feed(r, a), b)
    decreases |a|
  {
    hide FeedByte;
    if a == [] {
      assert a + b == b;
    } else {
      assert (a + b)[1..] == a[1..] + b;
      FeedAppend(FeedByte(r, a[0]), a[1..], b);
    }
  }

  // -------------------------------------------------------------------------
  // The residue rule
  // -------------------------------------------------------------------------

  function DoubleN(r: bv16, n: nat): bv16
    decreases n
  {
    if n == 0 then r else DoubleN(Double(r), n - 1)
  }

  /** No one among the top `n` bits. */
  predicate TopClear(r: bv16, n: nat)
    decreases n
  {
    n == 0 || (!Top(r) && TopClear(Double(r), n - 1))
  }

  lemma {:induction false} ClearTopOnlyMoves(r: bv16, n: nat)
    requires TopClear(r, n)
    ensures ShiftN(r, n) == DoubleN(r, n)
    decreases n
  {
    hide Top, Xor, Double;
    if n > 0 {
      ClearTopOnlyMoves(Double(r), n - 1);
    }
  }

  lemma LowByteIsClear(lo: byte)
    ensures TopClear(Low(lo), 8)
  {
  }

  lemma LowByteMoves(lo: byte)
    ensures DoubleN(Low(lo), 8) == High(lo)
  {
  }

  /** Eight clocks take a byte from the bottom of an otherwise empty register to its top. */
  lemma LowByteRises(lo: byte)
    ensures ShiftN(Low(lo), 8) == High(lo)
  {
    LowByteIsClear(lo);
    LowByteMoves(lo);
    ClearTopOnlyMoves(Low(lo), 8);
  }

  /** Feeding two bytes is adding them to the register and clocking it sixteen times. */
  lemma FeedTwo(r: bv16, hi: byte, lo: byte)
    ensures Feed(r, [hi, lo]) == ShiftN(Xor(r, Unpack(hi, lo)), 16)
  {
    hide Xor, High, Low, ShiftN;
    var x := Xor(r, High(hi));
    assert [hi, lo][1..] == [lo] && [lo][1..] == [];
    assert Feed(FeedByte(r, hi), [lo]) == FeedByte(FeedByte(r, hi), lo);
    assert Feed(r, [hi, lo]) == FeedByte(FeedByte(r, hi), lo);
    LowByteRises(lo);
    ShiftNLinear(x, Low(lo), 8);
    ShiftNAdds(Xor(x, Low(lo)), 8, 8);
    XorAssoc(r, High(hi), Low(lo));
  }

  /** The check bytes match exactly when the CRC of the data together with them is zero. */
  lemma Residue(data: seq<byte>, check: seq<byte>)
    requires |check| == 2
    ensures check == CalcCRC(data) <==> Feed(INITIAL, data + check) == 0
  {
    hide Xor, Pack, Unpack, Feed, ShiftN;
    var hi, lo := check[0], check[1];
    var crc := Feed(INITIAL, data);
    assert check == [hi, lo];
    FeedAppend(INITIAL, data, check);
    FeedTwo(crc, hi, lo);
    ShiftNInjective(Xor(crc, Unpack(hi, lo)), 16);
    XorEqual(crc, Unpack(hi, lo));
    PackUnpack(hi, lo);
  }

  lemma CheckFirst()
    ensures FeedByte(0xFFFF, 0x31) == 0xC782
    ensures FeedByte(0xC782, 0x32) == 0x3DBA
    ensures FeedByte(0x3DBA, 0x33) == 0x5BCE
  {
  }

  lemma CheckNext()
    ensures FeedByte(0x5BCE, 0x34) == 0x5349
    ensures FeedByte(0x5349, 0x35) == 0x4560
    ensures FeedByte(0x4560, 0x36) == 0x2EF4
  {
  }

  lemma CheckLast()
    ensures FeedByte(0x2EF4, 0x37) == 0x7718
    ensures FeedByte(0x7718, 0x38) == 0xA12B
    ensures FeedByte(0xA12B, 0x39) == 0x29B1
  {
  }

  /** The standard's check value: the CRC of the text "123456789". */
  lemma CheckValue()
    ensures CalcCRC([0x31, 0x32, 0x33, 0x34, 0x35, 0x36, 0x37, 0x38, 0x39]) == [0x29, 0xB1]
  {
    CheckFirst();
    CheckNext();
    CheckLast();
    CheckFeed();
    PackCheck();
  }

  lemma PackCheck()
    ensures Pack(0x29B1) == [0x29, 0xB1]
  {
  }

  lemma CheckFeed()
    requires
      && FeedByte(0xFFFF, 0x31) == 0xC782
      && FeedByte(0xC782, 0x32) == 0x3DBA
      && FeedByte(0x3DBA, 0x33) == 0x5BCE
      && FeedByte(0x5BCE, 0x34) == 0x5349
      && FeedByte(0x5349, 0x35) == 0x4560
      && FeedByte(0x4560, 0x36) == 0x2EF4
      && FeedByte(0x2EF4, 0x37) == 0x7718
      && FeedByte(0x7718, 0x38) == 0xA12B
      && FeedByte(0xA12B, 0x39) == 0x29B1
    ensures Feed(INITIAL, [0x31, 0x32, 0x33, 0x34, 0x35, 0x36, 0x37, 0x38, 0x39]) == 0x29B1
  {
    hide FeedByte, Feed;
    var data: seq<byte> := [0x31, 0x32, 0x33, 0x34, 0x35, 0x36, 0x37, 0x38, 0x39];
    assert data[0..] == data;
    FeedFrom(0xFFFF, data, 0);
    FeedFrom(0xC782, data, 1);
    FeedFrom(0x3DBA, data, 2);
    FeedFrom(0x5BCE, data, 3);
    FeedFrom(0x5349, data, 4);
    FeedFrom(0x4560, data, 5);
    FeedFrom(0x2EF4, data, 6);
    FeedFrom(0x7718, data, 7);
    FeedFrom(0xA12B, data, 8);
    FeedNone(0x29B1, data[9..]);
  }

  lemma FeedNone(r: bv16, data: seq<byte>)
    requires data == []
    ensures Feed(r, data) == r
  {
  }

  lemma FeedFrom(r: bv16, data: seq<byte>, i: nat)
    requires i < |data|
    ensures Feed(r, data[i..]) == Feed(FeedByte(r, data[i]), data[i + 1..])
  {
    assert data[i..][1..] == data[i + 1..];
  }

  // -------------------------------------------------------------------------
  // The register, one message bit at a time
  // -------------------------------------------------------------------------

  function FeedBit(r: bv16, bit: bool): bv16 {
    Shift(if bit then Xor(r, 0x8000) else r)
  }

  function FeedBits(r: bv16, bits: seq<bool>): bv16
    decreases |bits|
  {
    if bits == [] then r else FeedBits(FeedBit(r, bits[0]), bits[1..])
  }

  /** The top `n` bits of a word, most significant first. */
  function TopBits(w: bv16, n: nat): (bits: seq<bool>)
    ensures |bits| == n
    decreases n
  {
    if n == 0 then [] else [Top(w)] + TopBits(Double(w), n - 1)
  }

  function Bits(data: seq<byte>): (bits: seq<bool>)
    ensures |bits| == 8 * |data|
  {
    if data == [] then [] else TopBits(High(data[0]), 8) + Bits(data[1..])
  }

  lemma ShiftUnit()
    ensures Shift(0x8000) == 0x1021
  {
  }

  /** A bit that enters at the top of a loaded register is a bit of the message. */
  lemma PrefillStep(r: bv16, w: bv16)
    ensures Shift(Xor(r, w)) == Xor(FeedBit(r, Top(w)), Double(w))
  {
    hide Xor, Top, Double;
    var d, g: bv16 := Double(w), 0x1021;
    ShiftLinear(r, w);
    ShiftLinear(r, 0x8000);
    ShiftUnit();
    XorComm(d, g);
    XorAssoc(Shift(r), g, d);
  }

  lemma {:induction false} Prefill(r: bv16, w: bv16, n: nat)
    ensures ShiftN(Xor(r, w), n) == Xor(FeedBits(r, TopBits(w, n)), DoubleN(w, n))
    decreases n
  {
    hide Xor, Top, Double, FeedBit, Shift;
    if n > 0 {
      PrefillStep(r, w);
      Prefill(FeedBit(r, Top(w)), Double(w), n - 1);
      assert TopBits(w, n)[1..] == TopBits(Double(w), n - 1);
    }
  }

  lemma HighLeaves(b: byte)
    ensures DoubleN(High(b), 8) == 0
  {
  }

  lemma FeedByteIsBits(r: bv16, b: byte)
    ensures FeedByte(r, b) == FeedBits(r, TopBits(High(b), 8))
  {
    hide Xor, High, FeedBits, ShiftN, DoubleN, TopBits;
    Prefill(r, High(b), 8);
    HighLeaves(b);
    XorZero(FeedBits(r, TopBits(High(b), 8)));
  }

  lemma {:induction false} FeedBitsAppend(r: bv16, a: seq<bool>, b: seq<bool>)
    ensures FeedBits(r, a + b) == FeedBits(FeedBits(r, a), b)
    decreases |a|
  {
    hide FeedBit;
    if a == [] {
      assert a + b == b;
    } else {
      assert (a + b)[1..] == a[1..] + b;
      FeedBitsAppend(FeedBit(r, a[0]), a[1..], b);
    }
  }

  lemma {:induction false} FeedIsBits(r: bv16, data: seq<byte>)
    ensures Feed(r, data) == FeedBits(r, Bits(data))
    decreases |data|
  {
    hide FeedByte, FeedBits, TopBits;
    if data == [] {
      NoBits(r);
    } else {
      FeedByteIsBits(r, data[0]);
      FeedIsBits(FeedByte(r, data[0]), data[1..]);
      FeedBitsAppend(r, TopBits(High(data[0]), 8), Bits(data[1..]));
    }
  }

  lemma NoBits(r: bv16)
    ensures FeedBits(r, []) == r
  {
  }

  // -------------------------------------------------------------------------
  // Bursts of up to sixteen bits
  // -------------------------------------------------------------------------

  /** The low `16 - n` bits. */
  function LowMask(n: nat): bv16 {
    if n == 0 then 0xFFFF else LowMask(n - 1) >> 1
  }

  lemma LowMaskOdd(n: nat)
    requires n <= 15
    ensures LowMask(n) & 1 == 1
  {
    assert LowMask(4) == 0x0FFF;
    assert LowMask(8) == 0x00FF;
    assert LowMask(12) == 0x000F;
  }

  /** A register that feeding a bit leaves clear under an odd mask was clear under that mask halved. */
  lemma FeedBitBackwards(r: bv16, bit: bool, mask: bv16)
    requires mask & 1 == 1 && FeedBit(r, bit) & mask == 0
    ensures r & (mask >> 1) == 0
  {
  }

  /** What can reach zero in a few bits has only as many bits set, all of them at the top. */
  lemma {:induction false} FeedBitsBackwards(r: bv16, bits: seq<bool>)
    requires |bits| <= 16 && FeedBits(r, bits) == 0
    ensures r & LowMask(|bits|) == 0
    decreases |bits|
  {
    hide FeedBit;
    if bits != [] {
      FeedBitsBackwards(FeedBit(r, bits[0]), bits[1..]);
      LowMaskOdd(|bits| - 1);
      FeedBitBackwards(r, bits[0], LowMask(|bits| - 1));
    }
  }

  lemma {:induction false} ZerosOnlyShift(r: bv16, bits: seq<bool>)
    requires true !in bits
    ensures FeedBits(r, bits) == ShiftN(r, |bits|)
    decreases |bits|
  {
    hide Xor, Shift;
    if bits != [] {
      ZerosOnlyShift(FeedBit(r, bits[0]), bits[1..]);
    }
  }

  /** The first flipped bit is at `j`, and no flipped bit is further than fifteen from it. */
  ghost predicate Burst(bits: seq<bool>, j: nat) {
    && j < |bits| && bits[j]
    && forall i :: 0 <= i < |bits| && bits[i] ==> j <= i < j + 16
  }

  lemma FirstOneSticks(bits: seq<bool>)
    requires |bits| <= 15
    ensures FeedBits(FeedBit(0, true), bits) != 0
  {
    LowMaskOdd(|bits|);
    OddOverlap(LowMask(|bits|));
    if FeedBits(FeedBit(0, true), bits) == 0 {
      FeedBitsBackwards(FeedBit(0, true), bits);
    }
  }

  lemma OddOverlap(mask: bv16)
    requires mask & 1 == 1
    ensures FeedBit(0, true) & mask != 0
  {
  }

  lemma BurstLeavesTrace(bits: seq<bool>, j: nat)
    requires Burst(bits, j)
    ensures FeedBits(0, bits) != 0
  {
    hide FeedBit, FeedBits, ShiftN;
    var end := if j + 16 < |bits| then j + 16 else |bits|;
    var before, burst, after := bits[..j], bits[j + 1..end], bits[end..];
    assert bits == before + ([true] + (burst + after));
    FeedBitsAppend(0, before, [true] + (burst + after));
    ZerosOnlyShift(0, before);
    ShiftNInjective(0, |before|);
    FeedBitsAppend(0, [true], burst + after);
    OneBit(0, true);
    FeedBitsAppend(FeedBit(0, true), burst, after);
    FirstOneSticks(burst);
    var r := FeedBits(FeedBit(0, true), burst);
    ZerosOnlyShift(r, after);
    ShiftNInjective(r, |after|);
  }

  lemma OneBit(r: bv16, bit: bool)
    ensures FeedBits(r, [bit]) == FeedBit(r, bit)
  {
    hide FeedBit;
    assert [bit][1..] == [];
  }

  /** Which errors go unnoticed: exactly those whose own CRC, from an empty register, is zero. */
  lemma PassesIff(payload: seq<byte>, error: seq<byte>)
    requires |error| == |payload| + 2
    ensures var received := Corrupt(payload + CalcCRC(payload), error);
            received[|payload|..] == CalcCRC(received[..|payload|]) <==> Feed(0, error) == 0
  {
    hide Xor, Feed, FeedByte, CalcCRC;
    var sent := payload + CalcCRC(payload);
    var received := Corrupt(sent, error);
    Residue(payload, CalcCRC(payload));
    Residue(received[..|payload|], received[|payload|..]);
    assert received[..|payload|] + received[|payload|..] == received;
    FeedLinear(INITIAL, 0, sent, error);
    XorZero(INITIAL);
    XorZero(Feed(0, error));
  }

  /** Every burst of up to sixteen bits, anywhere in the payload and its check bytes, is noticed. */
  lemma BurstIsDetected(payload: seq<byte>, error: seq<byte>, j: nat)
    requires |error| == |payload| + 2 && Burst(Bits(error), j)
    ensures var received := Corrupt(payload + CalcCRC(payload), error);
            received[|payload|..] != CalcCRC(received[..|payload|])
  {
    PassesIff(payload, error);
    FeedIsBits(0, error);
    BurstLeavesTrace(Bits(error), j);
  }
}
