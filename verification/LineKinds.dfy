/**
  What the patterns of the page checker match, position by position: headings,
  table rows, list items, fences, the lines that open a block, and soft breaks.
*/
module LineKinds {
  import opened Options
  import opened Reflow

  // -------------------------------------------------------------------------
  // Pieces of patterns
  // -------------------------------------------------------------------------

  /** White space up to `i`. */
  ghost predicate Indent(s: string, i: nat) {
    i <= |s| && forall k :: 0 <= k < i ==> IsSpace(s[k])
  }

  /** The character `c`, `n` times from `i` on. */
  ghost predicate Repeats(s: string, c: char, i: nat, n: nat) {
    i + n <= |s| && forall k :: i <= k < i + n ==> s[k] == c
  }

  ghost predicate SpaceAt(s: string, i: nat) {
    i < |s| && IsSpace(s[i])
  }

  /** White space from `i` on, at least once, and then something else. */
  ghost predicate GapAt(s: string, i: nat) {
    exists j :: i < j < |s| && !IsSpace(s[j]) && forall k :: i <= k < j ==> IsSpace(s[k])
  }

  ghost predicate IsOneOf(s: string, i: nat, a: char, b: char, c: char) {
    i < |s| && (s[i] == a || s[i] == b || s[i] == c)
  }

  /** One to nine digits from `i` on, and a full stop or a bracket at `j`. */
  ghost predicate NumberAt(s: string, i: nat, j: nat) {
    && i + 1 <= j <= i + 9 && j < |s| && (s[j] == '.' || s[j] == ')')
    && forall k :: i <= k < j ==> IsDigit(s[k])
  }

  lemma GapIff(s: string, i: nat)
    requires i <= |s|
    ensures GapThenText(s[i..]) <==> GapAt(s, i)
  {
    var t := s[i..];
    if GapThenText(t) {
      var j := i + Spaces(t);
      assert !IsSpace(t[Spaces(t)]) && t[Spaces(t)] == s[j];
      assert forall k :: i <= k < j ==> s[k] == t[k - i];
    }
    if GapAt(s, i) {
      var j :| i < j < |s| && !IsSpace(s[j]) && forall k :: i <= k < j ==> IsSpace(s[k]);
      assert t[j - i] == s[j] && t[0] == s[i];
    }
    hide IsSpace;
  }

  lemma SpaceIff(s: string, i: nat)
    requires i <= |s|
    ensures StartsWithSpace(s[i..]) <==> SpaceAt(s, i)
  {
  }

  /** Where the white space at the start of a line ends, there is only one place. */
  lemma IndentIs(s: string, i: nat)
    requires Indent(s, i) && i < |s| && !IsSpace(s[i])
    ensures Spaces(s) == i && !Blank(s) && LStrip(s) != "" && LStrip(s)[0] == s[i]
  {
    SpacesOf(s, i);
  }

  lemma StripIndents(s: string)
    ensures Indent(s, Spaces(s)) && (Spaces(s) < |s| ==> !IsSpace(s[Spaces(s)]))
    ensures |LStrip(s)| == |s| - Spaces(s)
    ensures forall k :: 0 <= k < |LStrip(s)| ==> LStrip(s)[k] == s[k + Spaces(s)]
  {
  }

  lemma RunIff(s: string, c: char, n: nat)
    ensures Run(s, c) >= n <==> Repeats(s, c, 0, n)
  {
  }

  // -------------------------------------------------------------------------
  // The kinds of lines
  // -------------------------------------------------------------------------

  /** Two to six number signs, a gap, and text. */
  lemma HeadingIff(s: string)
    ensures IsHeading(s) <==> exists n: nat :: 2 <= n <= 6 && Repeats(s, '#', 0, n) && GapAt(s, n)
  {
    KindsAreApart('#');
    GapIff(s, Run(s, '#'));
    forall n: nat | 2 <= n <= 6 && Repeats(s, '#', 0, n) && GapAt(s, n)
      ensures n == Run(s, '#')
    {
      RunOf(s, '#', n);
    }
    hide GapAt, GapThenText, IsSpace;
    if IsHeading(s) {
      assert Repeats(s, '#', 0, Run(s, '#'));
    }
  }

  lemma TableRowIff(s: string)
    ensures IsTableRow(s) <==> exists i: nat :: Indent(s, i) && i < |s| && s[i] == '|'
  {
    KindsAreApart('|');
    StripIndents(s);
    forall i: nat | Indent(s, i) && i < |s| && s[i] == '|' ensures i == Spaces(s) && !Blank(s) {
      IndentIs(s, i);
    }
    hide IsSpace;
    if IsTableRow(s) {
      assert Indent(s, Spaces(s)) && s[Spaces(s)] == '|';
    }
  }

  ghost predicate BulletAt(s: string, i: nat) {
    Indent(s, i) && IsOneOf(s, i, '-', '*', '+') && GapAt(s, i + 1)
  }

  lemma BulletHere(s: string)
    ensures IsBullet(s) <==> BulletAt(s, Spaces(s))
  {
    StripIndents(s);
    var i, t := Spaces(s), LStrip(s);
    if i < |s| {
      GapIff(s, i + 1);
      assert t[1..] == s[i + 1..];
    }
    hide GapAt, GapThenText, IsSpace, Indent, Spaces, LStrip;
  }

  lemma BulletStands(s: string, i: nat)
    requires BulletAt(s, i)
    ensures i == Spaces(s)
  {
    KindsAreApart(s[i]);
    hide IsSpace, GapAt, Spaces;
    IndentIs(s, i);
  }

  lemma BulletIff(s: string)
    ensures IsBullet(s) <==> exists i: nat :: BulletAt(s, i)
  {
    BulletHere(s);
    forall i: nat | BulletAt(s, i) ensures i == Spaces(s) {
      BulletStands(s, i);
    }
    hide BulletAt, IsBullet, Spaces;
  }

  lemma DigitsIff(s: string, i: nat, t: string)
    requires i <= |s| && t == s[i..]
    ensures HasNumber(t) ==> NumberAt(s, i, i + Digits(t))
    ensures forall j: nat :: NumberAt(s, i, j) ==> HasNumber(t) && j == i + Digits(t)
  {
    var d := Digits(t);
    assert forall k :: 0 <= k < |t| ==> t[k] == s[i + k];
    if HasNumber(t) {
      forall k | i <= k < i + d ensures IsDigit(s[k]) {
        assert IsDigit(t[k - i]);
      }
    }
    forall j: nat | NumberAt(s, i, j) ensures HasNumber(t) && j == i + d {
      assert !IsDigit('.') && !IsDigit(')');
      assert t[j - i] == s[j];
      assert forall k :: 0 <= k < j - i ==> IsDigit(t[k]) by {
        assert forall k :: 0 <= k < j - i ==> t[k] == s[i + k];
      }
      DigitsOf(t, j - i);
    }
    hide IsDigit;
  }

  ghost predicate ItemAt(s: string, i: nat, j: nat) {
    Indent(s, i) && NumberAt(s, i, j) && GapAt(s, j + 1)
  }

  lemma NumberStartsPlainly(s: string, i: nat, j: nat)
    requires Indent(s, i) && NumberAt(s, i, j)
    ensures i == Spaces(s)
  {
    KindsAreApart(s[i]);
    IndentIs(s, i);
  }

  lemma StartsIff(s: string, i: nat, t: string)
    requires i <= |s| && t == s[i..]
    ensures StartsNumbered(t) <==> exists j: nat :: NumberAt(s, i, j) && GapAt(s, j + 1)
  {
    DigitsIff(s, i, t);
    var d := Digits(t);
    if d < |t| {
      assert t[d + 1..] == s[i + d + 1..];
      GapIff(s, i + d + 1);
    }
    hide IsDigit, IsSpace, NumberAt, GapThenText, GapAt, Digits;
  }

  lemma NumberedIff(s: string)
    ensures IsNumbered(s) <==> exists i: nat, j: nat :: ItemAt(s, i, j)
  {
    StripIndents(s);
    var i := Spaces(s);
    StartsIff(s, i, LStrip(s));
    forall k: nat, j: nat | ItemAt(s, k, j) ensures k == i {
      NumberStartsPlainly(s, k, j);
    }
    hide GapAt, NumberAt, StartsNumbered, Spaces, Indent;
    assert Indent(s, i) by {
      StripIndents(s);
    }
    if IsNumbered(s) {
      var j: nat :| NumberAt(s, i, j) && GapAt(s, j + 1);
      assert ItemAt(s, i, j);
    }
  }

  ghost predicate SignsAt(s: string, i: nat) {
    exists n: nat :: 1 <= n <= 6 && Repeats(s, '#', i, n) && SpaceAt(s, i + n)
  }

  ghost predicate NumberOpensAt(s: string, i: nat) {
    exists j: nat :: NumberAt(s, i, j) && SpaceAt(s, j + 1)
  }

  /** Something that opens a block stands at `i`. */
  ghost predicate BlockAt(s: string, i: nat) {
    && Indent(s, i)
    && (|| IsOneOf(s, i, '|', '<', '>')
        || SignsAt(s, i)
        || (IsOneOf(s, i, '-', '*', '+') && SpaceAt(s, i + 1))
        || NumberOpensAt(s, i)
        || Repeats(s, '`', i, 3) || Repeats(s, '~', i, 3))
  }

  lemma BlockIsPlain(s: string, i: nat)
    requires BlockAt(s, i)
    ensures i == Spaces(s) && i < |s|
  {
    KindsAreApart(s[i]);
    assert !IsSpace(s[i]) by {
      hide IsSpace, IsDigit;
      if n: nat :| 1 <= n <= 6 && Repeats(s, '#', i, n) && SpaceAt(s, i + n) {
        assert s[i] == '#';
      } else if j: nat :| NumberAt(s, i, j) && SpaceAt(s, j + 1) {
        assert IsDigit(s[i]);
      }
    }
    IndentIs(s, i);
  }

  lemma SignsIff(s: string, i: nat, t: string)
    requires i <= |s| && t == s[i..]
    ensures (1 <= Run(t, '#') <= 6 && StartsWithSpace(t[Run(t, '#')..]))
            <==> SignsAt(s, i)
  {
    KindsAreApart('#');
    var r := Run(t, '#');
    assert t[r..] == s[i + r..];
    SpaceIff(s, i + r);
    assert forall k :: 0 <= k < |t| ==> t[k] == s[i + k];
    forall n: nat | 1 <= n <= 6 && Repeats(s, '#', i, n) && SpaceAt(s, i + n) ensures n == r {
      assert forall k :: 0 <= k < n ==> t[k] == s[i + k];
      RunOf(t, '#', n);
    }
    if 1 <= r <= 6 && SpaceAt(s, i + r) {
      assert Repeats(s, '#', i, r) by {
        assert forall k :: i <= k < i + r ==> s[k] == t[k - i];
      }
    }
    hide IsSpace;
  }

  lemma ThreeIff(s: string, i: nat, t: string, c: char)
    requires i <= |s| && t == s[i..]
    ensures Run(t, c) >= 3 <==> Repeats(s, c, i, 3)
  {
    RunIff(t, c, 3);
    assert Repeats(t, c, 0, 3) <==> Repeats(s, c, i, 3) by {
      assert forall k :: 0 <= k < |t| ==> t[k] == s[i + k];
      if Repeats(t, c, 0, 3) {
        assert t[0] == c && t[1] == c && t[2] == c;
      }
    }
  }

  lemma OpensIff(s: string, i: nat, t: string)
    requires i <= |s| && t == s[i..]
    ensures OpensNumbered(t) <==> NumberOpensAt(s, i)
  {
    DigitsIff(s, i, t);
    var d := Digits(t);
    if d < |t| {
      assert t[d + 1..] == s[i + d + 1..];
      SpaceIff(s, i + d + 1);
    }
    hide IsDigit, IsSpace, NumberAt, StartsWithSpace, SpaceAt;
  }

  /** What the two lists of block openers say of the line, one by one. */
  lemma BlockHere(s: string)
    ensures IsBlockStart(s) <==> BlockAt(s, Spaces(s))
  {
    StripIndents(s);
    var i, t := Spaces(s), LStrip(s);
    SignsIff(s, i, t);
    ThreeIff(s, i, t, '`');
    ThreeIff(s, i, t, '~');
    OpensIff(s, i, t);
    if t != "" {
      SpaceIff(s, i + 1);
      assert t[1..] == s[i + 1..];
    } else {
      NoBlockAtEnd(s, i);
    }
    hide Repeats, SpaceAt, SignsAt, NumberOpensAt, OpensNumbered, StartsWithSpace, Run, Spaces, LStrip, Indent, IsSpace;
  }

  lemma BlockStartIff(s: string)
    ensures IsBlockStart(s) <==> exists i: nat :: BlockAt(s, i)
  {
    BlockHere(s);
    forall k: nat | BlockAt(s, k) ensures k == Spaces(s) {
      BlockIsPlain(s, k);
    }
    hide BlockAt, IsBlockStart, Spaces;
  }

  lemma NoBlockAtEnd(s: string, i: nat)
    requires i == |s|
    ensures !BlockAt(s, i)
  {
  }

  /** A fence of `n` marks stands at `i`, and no more of them. */
  ghost predicate FenceAt(s: string, i: nat, c: char, n: nat) {
    && i <= 3 && Indent(s, i) && (c == '`' || c == '~')
    && n >= 3 && Repeats(s, c, i, n) && (i + n < |s| ==> s[i + n] != c)
  }

  lemma FenceStandsAt(s: string, i: nat, c: char, n: nat)
    requires FenceAt(s, i, c, n)
    ensures FenceOf(s) == Some(Fence(c, n))
  {
    KindsAreApart(c);
    assert s[i] == c;
    IndentIs(s, i);
    var t := LStrip(s);
    assert forall j :: 0 <= j < |t| ==> t[j] == s[i + j];
    hide IsSpace, Spaces;
    if i + n < |s| {
      RunOf(t, c, n);
    } else {
      assert Run(t, c) == n by {
        assert |t| == n;
      }
    }
    assert t[0] == c;
  }

  lemma RunRepeats(s: string, i: nat, t: string, c: char)
    requires i <= |s| && t == s[i..]
    ensures Repeats(s, c, i, Run(t, c)) && (i + Run(t, c) < |s| ==> s[i + Run(t, c)] != c)
  {
    forall k | i <= k < i + Run(t, c) ensures s[k] == c {
      assert t[k - i] == c;
    }
  }

  lemma FenceStands(s: string)
    requires FenceOf(s).Some?
    ensures FenceAt(s, Spaces(s), FenceOf(s).value.mark, FenceOf(s).value.length)
  {
    StripIndents(s);
    RunRepeats(s, Spaces(s), LStrip(s), '`');
    RunRepeats(s, Spaces(s), LStrip(s), '~');
    hide IsSpace, Spaces, Repeats, Indent, LStrip, Run;
  }

  lemma FenceIff(s: string, c: char, n: nat)
    ensures FenceOf(s) == Some(Fence(c, n)) <==> exists i: nat :: FenceAt(s, i, c, n)
  {
    hide FenceAt, FenceOf;
    if FenceOf(s) == Some(Fence(c, n)) {
      FenceStands(s);
    }
    forall i: nat | FenceAt(s, i, c, n) ensures FenceOf(s) == Some(Fence(c, n)) {
      FenceStandsAt(s, i, c, n);
    }
  }

  // -------------------------------------------------------------------------
  // Code blocks
  // -------------------------------------------------------------------------

  /** A fence of this mark, and at least as long. */
  ghost predicate Closes(line: string, c: char, n: nat) {
    exists i: nat, k: nat :: k >= n && FenceAt(line, i, c, k)
  }

  ghost predicate IsFenceLine(line: string) {
    exists i: nat, c: char, n: nat :: FenceAt(line, i, c, n)
  }

  lemma ClosesIff(line: string, c: char, n: nat)
    ensures Closes(line, c, n) <==>
              FenceOf(line).Some? && FenceOf(line).value.mark == c && FenceOf(line).value.length >= n
  {
    hide FenceAt, FenceOf;
    forall i: nat, k: nat | FenceAt(line, i, c, k)
      ensures FenceOf(line) == Some(Fence(c, k))
    {
      FenceIff(line, c, k);
    }
    if FenceOf(line).Some? {
      FenceIff(line, FenceOf(line).value.mark, FenceOf(line).value.length);
    }
  }

  lemma FenceLineIff(line: string)
    ensures IsFenceLine(line) <==> FenceOf(line).Some?
  {
    hide FenceAt, FenceOf;
    forall i: nat, c: char, n: nat | FenceAt(line, i, c, n)
      ensures FenceOf(line).Some?
    {
      FenceIff(line, c, n);
    }
    if FenceOf(line).Some? {
      FenceIff(line, FenceOf(line).value.mark, FenceOf(line).value.length);
    }
  }

  lemma OpenFenceNext(lines: seq<string>, k: nat)
    requires k < |lines|
    ensures OpenFence(lines[..k + 1]) == NextFence(OpenFence(lines[..k]), lines[k])
  {
    assert lines[..k + 1][..k] == lines[..k];
    hide NextFence;
  }

  /**
    A code block that a fence opens on line `i` goes on until a fence of its own
    mark, and at least its length, whatever other fences come; and all its lines,
    that one included, are inside.
  */
  lemma {:induction false} BlockGoesOn(lines: seq<string>, i: nat, k: nat, c: char, n: nat)
    requires i < k <= |lines| && OpenFence(lines[..i]) == None && (exists p: nat :: FenceAt(lines[i], p, c, n))
    requires forall j :: i < j < k ==> !Closes(lines[j], c, n)
    ensures OpenFence(lines[..k]) == Some(Fence(c, n))
    ensures forall j :: i <= j < k ==> IsInside(lines, j)
    ensures k < |lines| ==> IsInside(lines, k)
    ensures k < |lines| && Closes(lines[k], c, n) ==> OpenFence(lines[..k + 1]) == None
  {
    hide FenceAt, Closes, FenceOf;
    if k == i + 1 {
      FenceIff(lines[i], c, n);
      OpenFenceNext(lines, i);
    } else {
      BlockGoesOn(lines, i, k - 1, c, n);
      ClosesIff(lines[k - 1], c, n);
      OpenFenceNext(lines, k - 1);
    }
    if k < |lines| {
      ClosesIff(lines[k], c, n);
      OpenFenceNext(lines, k);
    }
    hide OpenFence;
  }

  /** Outside a code block, a line that is no fence is outside, and opens none. */
  lemma PlainStaysOutside(lines: seq<string>, k: nat)
    requires k < |lines| && OpenFence(lines[..k]) == None && !IsFenceLine(lines[k])
    ensures OpenFence(lines[..k + 1]) == None && !IsInside(lines, k)
  {
    FenceLineIff(lines[k]);
    OpenFenceNext(lines, k);
    hide FenceOf, OpenFence;
  }

  ghost predicate OpensBlock(lines: seq<string>, i: nat) {
    i < |lines| && OpenFence(lines[..i]) == None && IsFenceLine(lines[i])
  }

  /** The lines that open a code block. */
  ghost function Openings(lines: seq<string>): set<int> {
    set i | 0 <= i < |lines| && OpensBlock(lines, i)
  }

  lemma OpeningsGrow(before: seq<string>, line: string)
    ensures Openings(before + [line]) == Openings(before) + if OpensBlock(before + [line], |before|) then {|before|} else {}
  {
    var lines := before + [line];
    forall i: nat | i < |before| ensures OpensBlock(lines, i) == OpensBlock(before, i) {
      assert lines[..i] == before[..i] && lines[i] == before[i];
    }
    hide OpensBlock;
  }

  /** Code blocks are counted by the lines that open them. */
  lemma {:induction false} BlocksAreCounted(lines: seq<string>)
    ensures Opened(lines) == |Openings(lines)|
  {
    if lines == [] {
      assert Openings(lines) == {};
    } else {
      var n := |lines| - 1;
      var before := lines[..n];
      BlocksAreCounted(before);
      FenceLineIff(lines[n]);
      assert lines == before + [lines[n]];
      assert OpensBlock(lines, n) <==> OpenFence(before).None? && FenceOf(lines[n]).Some?;
      hide IsFenceLine, OpenFence, FenceOf, OpensBlock, Openings;
      OpeningsGrow(before, lines[n]);
      NotYet(before);
    }
  }

  lemma NotYet(before: seq<string>)
    ensures |before| !in Openings(before)
  {
  }

  // -------------------------------------------------------------------------
  // Soft breaks
  // -------------------------------------------------------------------------

  /** CJK punctuation, the ideographs, and the full-width forms. */
  predicate IsWide(c: char) {
    '\U{3000}' <= c <= '\U{303f}' || '\U{4e00}' <= c <= '\U{9fff}' || '\U{ff00}' <= c <= '\U{ffef}'
  }

  /** The last character that is no white space stands at `k`. */
  ghost predicate EndsAt(s: string, k: nat) {
    k < |s| && !IsSpace(s[k]) && forall j :: k < j < |s| ==> IsSpace(s[j])
  }

  ghost predicate BeginsAt(s: string, k: nat) {
    Indent(s, k) && k < |s| && !IsSpace(s[k])
  }

  /**
    A break between two lines outside code is soft exactly if a wide character
    stands on both sides of it, two spaces do not end the first line, that is no
    heading and no table row, and nothing that opens a block begins the second.
  */
  lemma WrapsIff(a: string, b: string)
    ensures Wraps(a, b) <==>
              && (exists k: nat :: EndsAt(a, k) && IsWide(a[k]))
              && (exists k: nat :: BeginsAt(b, k) && IsWide(b[k]))
              && !(|a| >= 2 && a[|a| - 1] == ' ' && a[|a| - 2] == ' ')
              && !(exists i: nat :: Indent(a, i) && i < |a| && a[i] == '|')
              && !(exists n: nat :: 2 <= n <= 6 && Repeats(a, '#', 0, n) && GapAt(a, n))
              && !(exists i: nat :: BlockAt(b, i))
  {
    TableRowIff(a);
    HeadingIff(a);
    BlockStartIff(b);
    EndIff(a);
    BeginIff(b);
    hide Blank, Last, First, IsCjk, IsWide, IsTableRow, IsHeading, IsBlockStart, Repeats, GapAt, BlockAt;
  }

  lemma EndIff(a: string)
    ensures (!Blank(a) && IsCjk(Last(a))) <==> exists k: nat :: EndsAt(a, k) && IsWide(a[k])
  {
    if !Blank(a) {
      assert EndsAt(a, LastAt(a));
    }
    forall k: nat | EndsAt(a, k) ensures !Blank(a) && LastAt(a) == k {
      LastOf(a, k);
    }
    hide IsSpace;
  }

  lemma BeginIff(b: string)
    ensures (!Blank(b) && IsCjk(First(b))) <==> exists k: nat :: BeginsAt(b, k) && IsWide(b[k])
  {
    StripIndents(b);
    if !Blank(b) {
      assert BeginsAt(b, Spaces(b));
    }
    forall k: nat | BeginsAt(b, k) ensures !Blank(b) && Spaces(b) == k {
      IndentIs(b, k);
    }
    hide IsSpace;
  }

  // -------------------------------------------------------------------------
  // Kinds
  // -------------------------------------------------------------------------

  /** What a line counts as: a heading first, then a table row, a bullet, a numbered item. */
  lemma KindIff(s: string)
    ensures KindOf(s) == Heading <==> IsHeading(s)
    ensures KindOf(s) == TableRow <==> IsTableRow(s) && !IsHeading(s)
    ensures KindOf(s) == Bullet <==> IsBullet(s) && !IsTableRow(s) && !IsHeading(s)
    ensures KindOf(s) == Numbered <==> IsNumbered(s) && !IsBullet(s) && !IsTableRow(s) && !IsHeading(s)
  {
    hide IsHeading, IsTableRow, IsBullet, IsNumbered;
  }

  /** Three dashes, and nothing else. */
  ghost predicate RuleAt(s: string, i: nat) {
    Indent(s, i) && Repeats(s, '-', i, 3) && forall k :: i + 3 <= k < |s| ==> IsSpace(s[k])
  }

  lemma RuleStandsAt(s: string, i: nat)
    requires RuleAt(s, i)
    ensures IsRule(s)
  {
    KindsAreApart('-');
    assert s[i] == '-' && s[i + 1] == '-' && s[i + 2] == '-';
    hide IsSpace;
    IndentIs(s, i);
    LastOf(s, i + 2);
    assert s[i..i + 3] == "---";
  }

  lemma ThreeDashes(s: string, i: nat, j: nat)
    requires i <= j <= |s| && s[i..j] == "---"
    ensures j == i + 3 && Repeats(s, '-', i, 3)
  {
    assert s[i..j][0] == s[i] && s[i..j][1] == s[i + 1] && s[i..j][2] == s[i + 2];
  }

  lemma RuleStands(s: string)
    requires IsRule(s)
    ensures RuleAt(s, Spaces(s))
  {
    StripIndents(s);
    ThreeDashes(s, Spaces(s), LastAt(s) + 1);
    hide IsSpace, Spaces, LastAt, Repeats, LStrip;
  }

  /** Front matter begins on the first line and ends with the next rule: three dashes and nothing else. */
  lemma RuleIff(s: string)
    ensures IsRule(s) <==> exists i: nat :: RuleAt(s, i)
  {
    hide RuleAt, IsRule;
    if IsRule(s) {
      RuleStands(s);
    }
    forall i: nat | RuleAt(s, i) ensures IsRule(s) {
      RuleStandsAt(s, i);
    }
  }

  /** Where a page begins: after the first rule that ends what a rule on its first line began, or else at once. */
  lemma BodyIff(lines: seq<string>, k: nat)
    ensures lines == [] || !IsRule(lines[0]) ==> BodyOf(lines) == 0
    ensures lines != [] && IsRule(lines[0]) && 0 < k < |lines| && IsRule(lines[k]) && (forall j :: 0 < j < k ==> !IsRule(lines[j])) ==>
              BodyOf(lines) == k + 1
    ensures lines != [] && IsRule(lines[0]) && (forall j :: 0 < j < |lines| ==> !IsRule(lines[j])) ==> BodyOf(lines) == 0
  {
    hide IsRule;
  }

  /** The lines of a kind, outside code, from where the page begins. */
  ghost function LinesOfKind(lines: seq<string>, body: nat, kind: Kind): set<int> {
    set i | body <= i < |lines| && IsOfKind(lines, i, kind)
  }

  ghost predicate IsOfKind(lines: seq<string>, i: nat, kind: Kind) {
    i < |lines| && !IsInside(lines, i) && KindOf(lines[i]) == kind
  }

  lemma LinesOfKindGrow(before: seq<string>, line: string, body: nat, kind: Kind)
    ensures LinesOfKind(before + [line], body, kind)
         == LinesOfKind(before, body, kind) + if Counts(before + [line], |before|, body, kind) then {|before|} else {}
  {
    var lines := before + [line];
    forall i: nat | i < |before| ensures IsOfKind(lines, i, kind) == IsOfKind(before, i, kind) {
      assert lines[..i] == before[..i] && lines[i] == before[i];
    }
    assert Counts(lines, |before|, body, kind) <==> body <= |before| && IsOfKind(lines, |before|, kind);
    hide IsOfKind, Counts;
  }

  lemma {:induction false} KindIsCounted(lines: seq<string>, body: nat, kind: Kind)
    ensures Count(lines, body, kind) == |LinesOfKind(lines, body, kind)|
  {
    hide Counts, KindOf, IsInside;
    if lines == [] {
      assert LinesOfKind(lines, body, kind) == {};
    } else {
      var n := |lines| - 1;
      KindIsCounted(lines[..n], body, kind);
      assert lines == lines[..n] + [lines[n]];
      LinesOfKindGrow(lines[..n], lines[n], body, kind);
      assert n !in LinesOfKind(lines[..n], body, kind);
    }
  }

  /** The structure of a page: how many lines there are of each kind, and how many code blocks, the last one ended or not. */
  lemma StructureIsCounted(lines: seq<string>)
    ensures var s, body := StructureOf(lines), BodyOf(lines);
            && s.headings == |LinesOfKind(lines, body, Heading)| && s.rows == |LinesOfKind(lines, body, TableRow)|
            && s.bullets == |LinesOfKind(lines, body, Bullet)| && s.numbered == |LinesOfKind(lines, body, Numbered)|
            && s.fences == |Openings(lines)| && (s.unbalanced <==> OpenFence(lines).Some?)
  {
    KindIsCounted(lines, BodyOf(lines), Heading);
    KindIsCounted(lines, BodyOf(lines), TableRow);
    KindIsCounted(lines, BodyOf(lines), Bullet);
    KindIsCounted(lines, BodyOf(lines), Numbered);
    BlocksAreCounted(lines);
    hide LinesOfKind, Openings, BodyOf, Count, Opened;
  }
}
