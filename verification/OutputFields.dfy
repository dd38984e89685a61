/**
  The fields of a frame's header: which texts are a number, and what the parser
  does with each of them.
*/
module OutputFields {
  import opened Options
  import opened OutputProtocol

  // -------------------------------------------------------------------------
  // Digits
  // -------------------------------------------------------------------------

  /** Digits from end to end, with single underscores between them. */
  ghost predicate AreDigits(text: seq<byte>) {
    && text != [] && text[0] != 95 && text[|text| - 1] != 95
    && (forall k :: 0 <= k < |text| ==> 48 <= text[k] <= 57 || text[k] == 95)
    && (forall k :: 0 <= k < |text| - 1 ==> text[k] != 95 || text[k + 1] != 95)
  }

  /** The value of digits that follow others worth `before`, read from the left. */
  ghost function ValueAfter(before: int, text: seq<byte>): int
    decreases |text|
  {
    if text == [] then before
    else if text[0] == 95 then ValueAfter(before, text[1..])
    else ValueAfter(10 * before + text[0] as int - 48, text[1..])
  }

  lemma {:induction false} ValueOfLast(before: int, text: seq<byte>, b: byte)
    ensures ValueAfter(before, text + [b])
         == if b == 95 then ValueAfter(before, text) else 10 * ValueAfter(before, text) + b as int - 48
    decreases |text|
  {
    if text == [] {
      assert (text + [b])[1..] == [];
    } else {
      assert (text + [b])[1..] == text[1..] + [b];
      ValueOfLast(if text[0] == 95 then before else 10 * before + text[0] as int - 48, text[1..], b);
    }
  }

  lemma ValueOfEnd(text: seq<byte>)
    requires text != []
    ensures var n := |text| - 1;
            ValueAfter(0, text)
            == if text[n] == 95 then ValueAfter(0, text[..n]) else 10 * ValueAfter(0, text[..n]) + text[n] as int - 48
  {
    var n := |text| - 1;
    assert text == text[..n] + [text[n]];
    ValueOfLast(0, text[..n], text[n]);
  }

  lemma {:induction false} DigitsIff(text: seq<byte>)
    ensures ParseDigits(text).Some? <==> AreDigits(text)
    ensures AreDigits(text) ==> ParseDigits(text) == Some(ValueAfter(0, text))
  {
    hide ValueAfter;
    var n := |text| - 1;
    if n >= 0 {
      ValueOfEnd(text);
      if n == 0 {
        ValueOfNone();
        assert text[..0] == [];
      } else {
        var m := if text[n - 1] == 95 then n - 1 else n;
        DigitsIff(text[..m]);
        if m == n - 1 {
          ValueOfEnd(text[..n]);
          assert text[..n][..n - 1] == text[..m];
        }
        AreDigitsShorter(text, m);
      }
    }
  }

  lemma ValueOfNone()
    ensures ValueAfter(0, []) == 0
  {
  }

  lemma AreDigitsShorter(text: seq<byte>, m: nat)
    requires |text| > 1 && m == if text[|text| - 2] == 95 then |text| - 2 else |text| - 1
    ensures AreDigits(text) <==> 48 <= text[|text| - 1] <= 57 && AreDigits(text[..m])
  {
    var n := |text| - 1;
    assert forall k :: 0 <= k < m ==> text[..m][k] == text[k];
    if 48 <= text[n] <= 57 && AreDigits(text[..m]) {
      forall k | 0 <= k < |text| ensures 48 <= text[k] <= 57 || text[k] == 95 {
        assert k < m ==> 48 <= text[..m][k] <= 57 || text[..m][k] == 95;
      }
      forall k | 0 <= k < n ensures text[k] != 95 || text[k + 1] != 95 {
        assert k < m - 1 ==> text[..m][k] != 95 || text[..m][k + 1] != 95;
        assert text[..m][m - 1] == text[m - 1];
      }
    }
  }

  // -------------------------------------------------------------------------
  // Blanks and signs
  // -------------------------------------------------------------------------

  /** Tab, the four line breaks, the four separators, and the blank. */
  predicate IsSpace(b: byte) {
    || b == 9 || b == 10 || b == 11 || b == 12 || b == 13
    || b == 28 || b == 29 || b == 30 || b == 31 || b == 32
  }

  ghost predicate TrimsAt(text: seq<byte>, left: seq<byte>, a: nat, b: nat) {
    && a <= b <= |text| && left == text[a..b]
    && (forall k :: 0 <= k < a ==> IsSpace(text[k]))
    && (forall k :: b <= k < |text| ==> IsSpace(text[k]))
  }

  /** What is left of a text without the spaces around it. */
  ghost predicate Trims(text: seq<byte>, left: seq<byte>) {
    && (exists a: nat, b: nat :: TrimsAt(text, left, a, b))
    && (left != [] ==> !IsSpace(left[0]) && !IsSpace(left[|left| - 1]))
  }

  lemma BlankIff(b: byte)
    ensures IsBlank(b) <==> IsSpace(b)
  {
  }

  lemma TrimsMoreInFront(text: seq<byte>, left: seq<byte>)
    requires text != [] && IsSpace(text[0]) && Trims(text[1..], left)
    ensures Trims(text, left)
  {
    hide IsSpace;
    var a: nat, b: nat :| TrimsAt(text[1..], left, a, b);
    assert text[1..][a..b] == text[a + 1..b + 1];
    assert forall k :: 1 <= k < |text| ==> text[k] == text[1..][k - 1];
    assert TrimsAt(text, left, a + 1, b + 1);
  }

  lemma TrimsMoreBehind(text: seq<byte>, left: seq<byte>)
    requires text != [] && IsSpace(text[|text| - 1]) && Trims(text[..|text| - 1], left)
    ensures Trims(text, left)
  {
    hide IsSpace;
    var rest := text[..|text| - 1];
    var a: nat, b: nat :| TrimsAt(rest, left, a, b);
    assert rest[a..b] == text[a..b];
    assert forall k :: 0 <= k < |rest| ==> text[k] == rest[k];
    assert TrimsAt(text, left, a, b);
  }

  lemma {:induction false} StripTrims(text: seq<byte>)
    ensures Trims(text, Strip(text))
    decreases |text|
  {
    hide IsSpace, IsBlank;
    if text == [] {
      assert TrimsAt(text, [], 0, 0);
    } else {
      BlankIff(text[0]);
      BlankIff(text[|text| - 1]);
      if IsBlank(text[0]) {
        StripTrims(text[1..]);
        TrimsMoreInFront(text, Strip(text[1..]));
      } else if IsBlank(text[|text| - 1]) {
        StripTrims(text[..|text| - 1]);
        TrimsMoreBehind(text, Strip(text[..|text| - 1]));
      } else {
        assert TrimsAt(text, text, 0, |text|);
      }
    }
  }

  /** The number that a text stands for, if any: spaces, a sign or none, digits, spaces. */
  ghost predicate Reads(text: seq<byte>, n: int) {
    exists left :: Trims(text, left) && ReadsAs(left, n)
  }

  ghost predicate ReadsAs(left: seq<byte>, n: int) {
    || (AreDigits(left) && n == ValueAfter(0, left))
    || (left != [] && left[0] == 43 && AreDigits(left[1..]) && n == ValueAfter(0, left[1..]))
    || (left != [] && left[0] == 45 && AreDigits(left[1..]) && n == -ValueAfter(0, left[1..]))
  }

  /** Without the spaces around it, a text is what it is. */
  lemma TrimsOnce(text: seq<byte>, left: seq<byte>, other: seq<byte>)
    requires Trims(text, left) && Trims(text, other)
    ensures left == other
  {
    hide IsSpace;
    var a: nat, b: nat :| TrimsAt(text, left, a, b);
    var c: nat, d: nat :| TrimsAt(text, other, c, d);
    if left != [] {
      assert left[0] == text[a] && left[|left| - 1] == text[b - 1];
    }
    if other != [] {
      assert other[0] == text[c] && other[|other| - 1] == text[d - 1];
    }
  }

  lemma ReadsDigits(left: seq<byte>, n: int)
    ensures ReadsAs(left, n) <==>
              left != [] &&
              var digits := ParseDigits(if left[0] == DASH || left[0] == PLUS then left[1..] else left);
              digits.Some? && n == if left[0] == DASH then 0 - digits.value else digits.value
  {
    hide ValueAfter, ParseDigits;
    DigitsIff(left);
    if left != [] {
      DigitsIff(left[1..]);
    }
  }

  lemma ParseIntIff(text: seq<byte>, n: int)
    ensures ParseInt(text) == Some(n) <==> Reads(text, n)
  {
    hide Trims, ReadsAs, Strip, ParseDigits;
    var t := Strip(text);
    StripTrims(text);
    ReadsDigits(t, n);
    forall left | Trims(text, left) ensures left == t {
      TrimsOnce(text, left, t);
    }
  }

  // -------------------------------------------------------------------------
  // What follows a header
  // -------------------------------------------------------------------------

  /** How the parser goes on after a length field: with as much content as it says, or with none, or not at all. */
  lemma LengthIsFollowed(fileno: int, text: seq<byte>, length: int)
    requires SPACE !in text
    ensures var next := Parse(AtStart, [FileByte(if -1 <= fileno <= 9 then fileno else 0), SPACE] + text + [SPACE]).0;
            var file := if -1 <= fileno <= 9 then fileno else 0;
            && (Reads(text, length) && length != 0 ==> next == InContent(file, length, []))
            && (Reads(text, length) && length == 0 ==> next == AtStart)
            && ((forall n :: !Reads(text, n)) ==> next == Broken)
  {
    hide ParseInt, Reads;
    var file := if -1 <= fileno <= 9 then fileno else 0;
    ParseOne(AtStart, FileByte(file));
    ParseMore(AtStart, [FileByte(file)], AtFirstSpace(file), SPACE);
    assert [FileByte(file)] + [SPACE] == [FileByte(file), SPACE];
    ParseText(file, text);
    ParseConcat(AtStart, [FileByte(file), SPACE], text);
    ParseMore(AtStart, [FileByte(file), SPACE] + text, InLength(file, text), SPACE);
    ParseIntIff(text, length);
    if ParseInt(text).Some? {
      ParseIntIff(text, ParseInt(text).value);
    }
  }

  lemma {:induction false} ParseText(fileno: int, text: seq<byte>)
    requires SPACE !in text
    ensures Parse(InLength(fileno, []), text) == (InLength(fileno, text), [])
  {
    hide ParseInt;
    if text != [] {
      var before := text[..|text| - 1];
      assert text[|text| - 1] in text && before + [text[|text| - 1]] == text;
      ParseText(fileno, before);
      NoneBefore([]);
    }
  }

  /** A length below zero is never reached: whatever comes is kept, and nothing is handed on. */
  lemma {:induction false} NegativeLengthNeverEnds(fileno: int, length: int, bytes: seq<byte>)
    requires length < 0
    ensures Parse(InContent(fileno, length, []), bytes) == (InContent(fileno, length, bytes), [])
  {
    if bytes != [] {
      NegativeLengthNeverEnds(fileno, length, bytes[..|bytes| - 1]);
      assert bytes[..|bytes| - 1] + [bytes[|bytes| - 1]] == bytes;
      NoneBefore([]);
    }
  }

  /** A frame begins with a digit or a dash, and anything else breaks the stream for good. */
  lemma OtherBytesBreak(b: byte, bytes: seq<byte>)
    requires b != 45 && (b < 48 || b > 57)
    ensures Parse(AtStart, [b] + bytes) == (Broken, [])
  {
    ParseOne(AtStart, b);
    assert ([b] + bytes)[..1] == [b];
    StaysBroken([b] + bytes, 1);
  }

  // -------------------------------------------------------------------------
  // What was read
  // -------------------------------------------------------------------------

  /** What is taken for read from a stream holds each read in its place, and nothing between them. */
  lemma {:induction false} EveryReadCounts(rounds: seq<Round>, k: nat)
    requires k < |rounds|
    ensures OutOf([]) == [] && ErrOf([]) == []
    ensures OutOf(rounds[..k]) + rounds[k].out == OutOf(rounds[..k + 1]) <= OutOf(rounds)
    ensures ErrOf(rounds[..k]) + rounds[k].err == ErrOf(rounds[..k + 1]) <= ErrOf(rounds)
    decreases |rounds|
  {
    var n := |rounds| - 1;
    assert rounds[..k + 1][..k] == rounds[..k];
    if k == n {
      assert rounds[..k + 1] == rounds;
    } else {
      EveryReadCounts(rounds[..n], k);
      assert rounds[..n][..k] == rounds[..k] && rounds[..n][..k + 1] == rounds[..k + 1];
    }
  }
}
