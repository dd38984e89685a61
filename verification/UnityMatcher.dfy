/**
  Colours the output of a Unity test run, line by line, however the output is cut
  into pieces on its way.
*/
module UnityMatcher {
  import opened OutputProtocol

  const FAIL: seq<byte> := [58, 70, 65, 73, 76]   // ":FAIL"
  const PASS: seq<byte> := [58, 80, 65, 83, 83]   // ":PASS"
  const INFO: seq<byte> := [58, 73, 78, 70, 79]   // ":INFO"

  datatype Color = NoColor | Red | Green | Yellow

  datatype Echo = Echo(line: seq<byte>, color: Color)

  /** An unfinished line, and what the finished ones have shown. */
  datatype Match = Match(state: seq<byte>, hasFail: bool, inSummary: bool)

  predicate IsSeparator(line: seq<byte>) {
    |line| == 23 && forall k :: 0 <= k < |line| ==> line[k] == DASH
  }

  predicate Contains(line: seq<byte>, word: seq<byte>) {
    exists k :: 0 <= k <= |line| && word <= line[k..]
  }

  /** One finished line. */
  function Matched(m: Match, line: seq<byte>): (Match, Echo) {
    if IsSeparator(line) then (m.(inSummary := true), Echo(line, NoColor))
    else if m.inSummary then (m, Echo(line, if m.hasFail then Red else Green))
    else if Contains(line, FAIL) then (m.(hasFail := true), Echo(line, Red))
    else (m, Echo(line, if Contains(line, PASS) then Green else if Contains(line, INFO) then Yellow else NoColor))
  }

  /** All the finished lines of a text; the rest of it waits. */
  function Consumed(m: Match, text: seq<byte>): (Match, seq<Echo>)
    decreases |text|
  {
    var k := FirstNewline(text);
    if k == |text| then (m.(state := text), [])
    else
      var (next, echo) := Matched(m, text[..k]);
      var (last, echoes) := Consumed(next, text[k + 1..]);
      (last, [echo] + echoes)
  }

  function Fed(m: Match, data: seq<byte>): (Match, seq<Echo>) {
    Consumed(m, m.state + data)
  }

  class UnityMatcher {
    var state: seq<byte>
    var hasFail: bool
    var inSummary: bool

    function Now(): Match
      reads this
    {
      Match(state, hasFail, inSummary)
    }

    constructor ()
      ensures Now() == Match([], false, false)
    {
      state, hasFail, inSummary := [], false, false;
    }

    method Show(line: seq<byte>) returns (echo: Echo)
      modifies this`hasFail, this`inSummary
      ensures (Now(), echo) == Matched(old(Now()), line)
    {
      var color := NoColor;
      if IsSeparator(line) {
        inSummary := true;
      } else if inSummary {
        color := if hasFail then Red else Green;
      } else if Contains(line, FAIL) {
        hasFail := true;
        color := Red;
      } else if Contains(line, PASS) {
        color := Green;
      } else if Contains(line, INFO) {
        color := Yellow;
      }
      echo := Echo(line, color);
    }

    method Feed(data: seq<byte>) returns (echoes: seq<Echo>)
      requires FirstNewline(state) == |state|
      modifies this
      ensures (Now(), echoes) == Fed(old(Now()), data)
      ensures FirstNewline(state) == |state|
    {
      ghost var before := Now();
      state := state + data;
      if FirstNewline(data) == |data| {
        NoNewline(before.state, data);
        return [];
      }
      hide Matched, FirstNewline, Consumed;
      var rest := state;
      ghost var all := Consumed(before, state);
      ConsumedIgnoresState(before, Now(), state);
      echoes := [];
      assert [] + all.1 == all.1;
      while FirstNewline(rest) < |rest|
        invariant (Consumed(Now(), rest).0, echoes + Consumed(Now(), rest).1) == all
        decreases |rest|
      {
        var k := FirstNewline(rest);
        ConsumedOne(Now(), rest);
        var echo := Show(rest[..k]);
        Regroup(echoes, [echo], Consumed(Now(), rest[k + 1..]).1);
        echoes := echoes + [echo];
        rest := rest[k + 1..];
      }
      WaitingDoesNotMatter(Now(), rest);
      assert echoes + [] == echoes;
      state := rest;
    }
  }

  /** The first line of a text, and then the rest. */
  lemma ConsumedOne(m: Match, text: seq<byte>)
    requires FirstNewline(text) < |text|
    ensures var k := FirstNewline(text);
            var (next, echo) := Matched(m, text[..k]);
            var (last, echoes) := Consumed(next, text[k + 1..]);
            Consumed(m, text) == (last, [echo] + echoes)
  {
    hide Matched, FirstNewline;
  }

  lemma NoNewline(a: seq<byte>, b: seq<byte>)
    requires FirstNewline(a) == |a| && FirstNewline(b) == |b|
    ensures FirstNewline(a + b) == |a + b|
  {
    assert forall k :: 0 <= k < |a + b| ==> (a + b)[k] == (if k < |a| then a[k] else b[k - |a|]);
  }

  /** What waits is only what is consumed next. */
  lemma WaitingDoesNotMatter(m: Match, text: seq<byte>)
    requires FirstNewline(text) == |text|
    ensures Consumed(m, text) == (m.(state := text), [])
  {
  }

  lemma FirstNewlineStays(text: seq<byte>, more: seq<byte>)
    requires FirstNewline(text) < |text|
    ensures FirstNewline(text + more) == FirstNewline(text)
  {
    assert forall j :: 0 <= j < |text| ==> (text + more)[j] == text[j];
  }

  /**
    Pieces do not matter: feeding two of them does what feeding both at once does,
    echoes and all.
  */
  lemma {:induction false} PiecesDoNotMatter(m: Match, text: seq<byte>, more: seq<byte>)
    ensures var (middle, first) := Consumed(m, text);
            var (last, second) := Fed(middle, more);
            Consumed(m, text + more) == (last, first + second)
    decreases |text|
  {
    hide Matched, FirstNewline;
    var k := FirstNewline(text);
    if k == |text| {
      ConsumedIgnoresState(m, m.(state := text), text + more);
      assert [] + Consumed(m, text + more).1 == Consumed(m, text + more).1;
    } else {
      var (next, echo) := Matched(m, text[..k]);
      PiecesDoNotMatter(next, text[k + 1..], more);
      FirstNewlineStays(text, more);
      assert (text + more)[..k] == text[..k] && (text + more)[k + 1..] == text[k + 1..] + more;
      var (middle, first) := Consumed(next, text[k + 1..]);
      Regroup([echo], first, Fed(middle, more).1);
    }
  }

  lemma {:induction false} ConsumedIgnoresState(m: Match, n: Match, text: seq<byte>)
    requires m.hasFail == n.hasFail && m.inSummary == n.inSummary
    ensures Consumed(m, text) == Consumed(n, text)
    decreases |text|
  {
    hide FirstNewline;
    var k := FirstNewline(text);
    if k < |text| {
      ConsumedIgnoresState(Matched(m, text[..k]).0, Matched(n, text[..k]).0, text[k + 1..]);
    }
  }

  function FedAll(m: Match, pieces: seq<seq<byte>>): (Match, seq<Echo>) {
    if pieces == [] then (m, [])
    else
      var (middle, first) := FedAll(m, pieces[..|pieces| - 1]);
      var (last, second) := Fed(middle, pieces[|pieces| - 1]);
      (last, first + second)
  }

  /** So only the whole output matters, not how it came. */
  lemma {:induction false} OnlyTheOutputMatters(pieces: seq<seq<byte>>)
    ensures FedAll(Match([], false, false), pieces) == Consumed(Match([], false, false), Join(pieces))
  {
    var m := Match([], false, false);
    if pieces != [] {
      OnlyTheOutputMatters(pieces[..|pieces| - 1]);
      PiecesDoNotMatter(m, Join(pieces[..|pieces| - 1]), pieces[|pieces| - 1]);
    }
  }

  // -------------------------------------------------------------------------
  // What the colours say
  // -------------------------------------------------------------------------

  /** The finished lines of a text, without their newlines. */
  function Finished(text: seq<byte>): seq<seq<byte>>
    decreases |text|
  {
    if !exists k :: 0 <= k < |text| && text[k] == 10 then []
    else
      var k := FirstNewline(text);
      [text[..k]] + Finished(text[k + 1..])
  }

  ghost predicate Has(line: seq<byte>, a: byte, b: byte, c: byte, d: byte, e: byte) {
    exists k :: 0 <= k < |line| - 4
      && line[k] == a && line[k + 1] == b && line[k + 2] == c && line[k + 3] == d && line[k + 4] == e
  }

  ghost predicate Fails(line: seq<byte>) {
    Has(line, 58, 70, 65, 73, 76)
  }

  /** Twenty-three dashes. */
  ghost predicate Separates(line: seq<byte>) {
    line == [45, 45, 45, 45, 45, 45, 45, 45, 45, 45, 45, 45, 45, 45, 45, 45, 45, 45, 45, 45, 45, 45, 45]
  }

  ghost predicate InSummary(lines: seq<seq<byte>>, k: nat) {
    exists j :: 0 <= j < k && j < |lines| && Separates(lines[j])
  }

  /** A line before the summary reports a failure. */
  ghost predicate FailedBefore(lines: seq<seq<byte>>, k: nat) {
    exists j :: 0 <= j < k && j < |lines| && Fails(lines[j]) && !Separates(lines[j]) && !InSummary(lines, j)
  }

  /**
    The colour of a line: the separator has none; in the summary, red if a line
    before the separator reports a failure, and otherwise green; elsewhere, by
    what the line reports, a failure first.
  */
  ghost function ColorOf(lines: seq<seq<byte>>, k: nat): Color
    requires k < |lines|
  {
    var line := lines[k];
    if Separates(line) then NoColor
    else if InSummary(lines, k) then (if FailedBefore(lines, k) then Red else Green)
    else if Fails(line) then Red
    else if Has(line, 58, 80, 65, 83, 83) then Green
    else if Has(line, 58, 73, 78, 70, 79) then Yellow
    else NoColor
  }

  lemma ContainedIsHad(line: seq<byte>, word: seq<byte>, k: nat)
    requires |word| == 5 && k <= |line| && word <= line[k..]
    ensures Has(line, word[0], word[1], word[2], word[3], word[4])
  {
    assert line[k..][..5] == word;
    assert forall j :: 0 <= j < 5 ==> line[k + j] == line[k..][..5][j];
    assert line[k] == word[0] && line[k + 1] == word[1] && line[k + 2] == word[2] && line[k + 3] == word[3] && line[k + 4] == word[4];
  }

  lemma HadIsContained(line: seq<byte>, word: seq<byte>)
    requires |word| == 5 && Has(line, word[0], word[1], word[2], word[3], word[4])
    ensures Contains(line, word)
  {
    var k :| 0 <= k < |line| - 4
      && line[k] == word[0] && line[k + 1] == word[1] && line[k + 2] == word[2] && line[k + 3] == word[3] && line[k + 4] == word[4];
    assert line[k..][..5] == word;
    assert word <= line[k..];
  }

  lemma ContainsIff(line: seq<byte>, word: seq<byte>)
    requires |word| == 5
    ensures Contains(line, word) <==> Has(line, word[0], word[1], word[2], word[3], word[4])
  {
    hide Has;
    if Contains(line, word) {
      var k :| 0 <= k <= |line| && word <= line[k..];
      ContainedIsHad(line, word, k);
    }
    if Has(line, word[0], word[1], word[2], word[3], word[4]) {
      HadIsContained(line, word);
    }
  }

  lemma SeparatorIff(line: seq<byte>)
    ensures IsSeparator(line) <==> Separates(line)
  {
  }

  /** Where the matcher stands after some lines. */
  ghost predicate Stands(m: Match, lines: seq<seq<byte>>) {
    && (m.inSummary <==> InSummary(lines, |lines|))
    && (m.hasFail <==> FailedBefore(lines, |lines|))
  }

  lemma InSummaryGrows(lines: seq<seq<byte>>, line: seq<byte>, k: nat)
    requires k <= |lines|
    ensures InSummary(lines + [line], k) == InSummary(lines, k)
    ensures InSummary(lines + [line], |lines| + 1) <==> InSummary(lines, |lines|) || Separates(line)
  {
    hide Separates;
    var longer := lines + [line];
    assert forall j :: 0 <= j < |lines| ==> longer[j] == lines[j];
    assert longer[|lines|] == line;
  }

  lemma FailedGrows(lines: seq<seq<byte>>, line: seq<byte>)
    ensures FailedBefore(lines + [line], |lines|) == FailedBefore(lines, |lines|)
    ensures FailedBefore(lines + [line], |lines| + 1) <==>
              FailedBefore(lines, |lines|) || (Fails(line) && !Separates(line) && !InSummary(lines, |lines|))
  {
    hide Separates, Fails, InSummary;
    var longer := lines + [line];
    forall j | 0 <= j <= |lines| ensures InSummary(longer, j) == InSummary(lines, j) {
      InSummaryGrows(lines, line, j);
    }
    assert forall j :: 0 <= j < |lines| ==> longer[j] == lines[j];
    assert longer[|lines|] == line;
  }

  lemma MatchedStands(m: Match, lines: seq<seq<byte>>, line: seq<byte>)
    requires Stands(m, lines)
    ensures Stands(Matched(m, line).0, lines + [line])
    ensures Matched(m, line).1 == Echo(line, ColorOf(lines + [line], |lines|))
  {
    hide Contains, IsSeparator, Has, Separates, InSummary, FailedBefore;
    SeparatorIff(line);
    ContainsIff(line, FAIL);
    ContainsIff(line, PASS);
    ContainsIff(line, INFO);
    InSummaryGrows(lines, line, |lines|);
    FailedGrows(lines, line);
  }

  lemma NewlineIff(text: seq<byte>)
    ensures FirstNewline(text) < |text| <==> exists k :: 0 <= k < |text| && text[k] == 10
  {
  }

  lemma ColorStays(lines: seq<seq<byte>>, more: seq<seq<byte>>, k: nat)
    requires k < |lines|
    ensures ColorOf(lines + more, k) == ColorOf(lines, k)
  {
    hide Has, Separates, Fails;
    var longer := lines + more;
    assert forall j :: 0 <= j < |lines| ==> longer[j] == lines[j];
    assert forall j :: 0 <= j <= k ==> InSummary(longer, j) == InSummary(lines, j);
  }

  /** From where the matcher stands after `before`. */
  lemma {:induction false} EchoesFrom(m: Match, before: seq<seq<byte>>, text: seq<byte>)
    requires Stands(m, before)
    ensures var (last, echoes) := Consumed(m, text);
            var all := before + Finished(text);
            && |echoes| == |Finished(text)| && Stands(last, all)
            && forall k :: 0 <= k < |echoes| ==> echoes[k] == Echo(Finished(text)[k], ColorOf(all, |before| + k))
    decreases |text|
  {
    hide Matched, ColorOf, Stands, FirstNewline;
    NewlineIff(text);
    var k := FirstNewline(text);
    if k == |text| {
      assert before + [] == before;
      StateDoesNotMatter(m, text, before);
    } else {
      var line := text[..k];
      var (next, echo) := Matched(m, line);
      MatchedStands(m, before, line);
      EchoesFrom(next, before + [line], text[k + 1..]);
      assert before + [line] + Finished(text[k + 1..]) == before + Finished(text);
      ColorStays(before + [line], Finished(text[k + 1..]), |before|);
    }
  }

  lemma StateDoesNotMatter(m: Match, text: seq<byte>, lines: seq<seq<byte>>)
    requires Stands(m, lines)
    ensures Stands(m.(state := text), lines)
  {
  }

  lemma StandsAtFirst(m: Match)
    requires !m.hasFail && !m.inSummary
    ensures Stands(m, [])
  {
  }

  lemma StandsMeans(m: Match, lines: seq<seq<byte>>)
    requires Stands(m, lines)
    ensures m.hasFail <==> FailedBefore(lines, |lines|)
  {
  }

  /**
    However the output of a run is cut into pieces, each finished line is echoed
    once, in order and in its colour; and the verdict is a failure if and only if
    a line before the summary reports one.
  */
  lemma ColorsTellTheTruth(pieces: seq<seq<byte>>)
    ensures var (last, echoes) := FedAll(Match([], false, false), pieces);
            var lines := Finished(Join(pieces));
            && |echoes| == |lines|
            && (forall k :: 0 <= k < |lines| ==> echoes[k] == Echo(lines[k], ColorOf(lines, k)))
            && (last.hasFail <==> FailedBefore(lines, |lines|))
  {
    hide *;
    var m := Match([], false, false);
    OnlyTheOutputMatters(pieces);
    StandsAtFirst(m);
    EchoesFrom(m, [], Join(pieces));
    var (last, echoes) := Consumed(m, Join(pieces));
    var lines := Finished(Join(pieces));
    assert [] + lines == lines;
    StandsMeans(last, lines);
    forall k | 0 <= k < |lines| ensures echoes[k] == Echo(lines[k], ColorOf(lines, k)) {
      assert echoes[k] == Echo(lines[k], ColorOf([] + lines, 0 + k));
    }
  }
}
