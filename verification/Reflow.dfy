/**
  Joining the lines of a Chinese paragraph.  A page is the sequence of its lines.
  A line break between two CJK characters of one paragraph is soft, and goes;
  all others stay, and so does what the page is made of.
*/
module Reflow {
  import opened Options

  // -------------------------------------------------------------------------
  // Characters
  // -------------------------------------------------------------------------

  predicate SpaceCode(c: int) {
    0x9 <= c <= 0xd || 0x1c <= c <= 0x20 || c == 0x85 || c == 0xa0 || c == 0x1680 || 0x2000 <= c <= 0x200a
    || 0x2028 <= c <= 0x2029 || c == 0x202f || c == 0x205f || c == 0x3000
  }

  predicate IsSpace(c: char) {
    SpaceCode(c as int)
  }

  /** The decimal digits of all scripts. */
  predicate DigitCode(c: int) {
    || 0x30 <= c < 0x3a || 0x660 <= c < 0x66a || 0x6f0 <= c < 0x6fa || 0x7c0 <= c < 0x7ca
    || 0x966 <= c < 0x970 || 0x9e6 <= c < 0x9f0 || 0xa66 <= c < 0xa70 || 0xae6 <= c < 0xaf0
    || 0xb66 <= c < 0xb70 || 0xbe6 <= c < 0xbf0 || 0xc66 <= c < 0xc70 || 0xce6 <= c < 0xcf0
    || 0xd66 <= c < 0xd70 || 0xde6 <= c < 0xdf0 || 0xe50 <= c < 0xe5a || 0xed0 <= c < 0xeda
    || 0xf20 <= c < 0xf2a || 0x1040 <= c < 0x104a || 0x1090 <= c < 0x109a || 0x17e0 <= c < 0x17ea
    || 0x1810 <= c < 0x181a || 0x1946 <= c < 0x1950 || 0x19d0 <= c < 0x19da || 0x1a80 <= c < 0x1a8a
    || 0x1a90 <= c < 0x1a9a || 0x1b50 <= c < 0x1b5a || 0x1bb0 <= c < 0x1bba || 0x1c40 <= c < 0x1c4a
    || 0x1c50 <= c < 0x1c5a || 0xa620 <= c < 0xa62a || 0xa8d0 <= c < 0xa8da || 0xa900 <= c < 0xa90a
    || 0xa9d0 <= c < 0xa9da || 0xa9f0 <= c < 0xa9fa || 0xaa50 <= c < 0xaa5a || 0xabf0 <= c < 0xabfa
    || 0xff10 <= c < 0xff1a || 0x104a0 <= c < 0x104aa || 0x10d30 <= c < 0x10d3a || 0x11066 <= c < 0x11070
    || 0x110f0 <= c < 0x110fa || 0x11136 <= c < 0x11140 || 0x111d0 <= c < 0x111da || 0x112f0 <= c < 0x112fa
    || 0x11450 <= c < 0x1145a || 0x114d0 <= c < 0x114da || 0x11650 <= c < 0x1165a || 0x116c0 <= c < 0x116ca
    || 0x11730 <= c < 0x1173a || 0x118e0 <= c < 0x118ea || 0x11950 <= c < 0x1195a || 0x11c50 <= c < 0x11c5a
    || 0x11d50 <= c < 0x11d5a || 0x11da0 <= c < 0x11daa || 0x16a60 <= c < 0x16a6a || 0x16ac0 <= c < 0x16aca
    || 0x16b50 <= c < 0x16b5a || 0x1d7ce <= c < 0x1d7d8 || 0x1d7d8 <= c < 0x1d7e2 || 0x1d7e2 <= c < 0x1d7ec
    || 0x1d7ec <= c < 0x1d7f6 || 0x1d7f6 <= c < 0x1d800 || 0x1e140 <= c < 0x1e14a || 0x1e2f0 <= c < 0x1e2fa
    || 0x1e950 <= c < 0x1e95a || 0x1fbf0 <= c < 0x1fbfa
  }

  predicate IsDigit(c: char) {
    DigitCode(c as int)
  }

  predicate IsCjk(c: char) {
    0x3000 <= c as int <= 0x303f || 0x4e00 <= c as int <= 0x9fff || 0xff00 <= c as int <= 0xffef
  }

  /** The characters that give a line a meaning of its own. */
  predicate IsMark(c: char) {
    c == '|' || c == '#' || c == '-' || c == '*' || c == '+' || c == '.' || c == ')' || c == '<' || c == '>' || c == '`' || c == '~'
  }

  lemma KindsAreApart(c: char)
    ensures IsMark(c) ==> !IsSpace(c) && !IsDigit(c) && !IsCjk(c)
    ensures IsDigit(c) ==> !IsSpace(c)
  {
  }

  // -------------------------------------------------------------------------
  // Lines
  // -------------------------------------------------------------------------

  /** How many characters of the one kind, or how often the one character, a line starts with. */
  function Spaces(s: string): (k: nat)
    ensures k <= |s|
    ensures forall j :: 0 <= j < k ==> IsSpace(s[j])
    ensures k < |s| ==> !IsSpace(s[k])
  {
    if s == "" || !IsSpace(s[0]) then 0 else 1 + Spaces(s[1..])
  }

  function Digits(s: string): (k: nat)
    ensures k <= |s|
    ensures forall j :: 0 <= j < k ==> IsDigit(s[j])
    ensures k < |s| ==> !IsDigit(s[k])
  {
    if s == "" || !IsDigit(s[0]) then 0 else 1 + Digits(s[1..])
  }

  function Run(s: string, c: char): (k: nat)
    ensures k <= |s|
    ensures forall j :: 0 <= j < k ==> s[j] == c
    ensures k < |s| ==> s[k] != c
  {
    if s == "" || s[0] != c then 0 else 1 + Run(s[1..], c)
  }

  predicate Blank(s: string) {
    Spaces(s) == |s|
  }

  function LStrip(s: string): string {
    s[Spaces(s)..]
  }

  function First(s: string): char
    requires !Blank(s)
  {
    s[Spaces(s)]
  }

  /** The index of the last character that is no space. */
  function LastAt(s: string): (k: nat)
    requires !Blank(s)
    ensures k < |s| && !IsSpace(s[k])
    ensures forall j :: k < j < |s| ==> IsSpace(s[j])
  {
    if !IsSpace(s[|s| - 1]) then |s| - 1
    else
      assert s[..|s| - 1][Spaces(s)] == s[Spaces(s)];
      LastAt(s[..|s| - 1])
  }

  function Last(s: string): char
    requires !Blank(s)
  {
    s[LastAt(s)]
  }

  /** Two spaces at the end are a break that is meant. */
  predicate EndsWithTwoSpaces(s: string) {
    |s| >= 2 && s[|s| - 2] == ' ' && s[|s| - 1] == ' '
  }

  /** White space, and something after it. */
  predicate GapThenText(s: string) {
    s != "" && IsSpace(s[0]) && !Blank(s)
  }

  predicate IsTableRow(s: string) {
    !Blank(s) && First(s) == '|'
  }

  predicate IsHeading(s: string) {
    2 <= Run(s, '#') <= 6 && GapThenText(s[Run(s, '#')..])
  }

  predicate IsBullet(s: string) {
    var t := LStrip(s);
    t != "" && (t[0] == '-' || t[0] == '*' || t[0] == '+') && GapThenText(t[1..])
  }

  /** A number of at most nine digits, and a full stop or bracket. */
  predicate HasNumber(t: string) {
    1 <= Digits(t) <= 9 && Digits(t) < |t| && (t[Digits(t)] == '.' || t[Digits(t)] == ')')
  }

  predicate StartsNumbered(t: string) {
    HasNumber(t) && GapThenText(t[Digits(t) + 1..])
  }

  predicate IsNumbered(s: string) {
    StartsNumbered(LStrip(s))
  }

  predicate StartsWithSpace(s: string) {
    s != "" && IsSpace(s[0])
  }

  predicate OpensNumbered(t: string) {
    HasNumber(t) && StartsWithSpace(t[Digits(t) + 1..])
  }

  /** A line that opens a block of its own. */
  predicate IsBlockStart(s: string) {
    var t := LStrip(s);
    && t != ""
    && (|| t[0] == '|' || t[0] == '<' || t[0] == '>'
        || (1 <= Run(t, '#') <= 6 && StartsWithSpace(t[Run(t, '#')..]))
        || ((t[0] == '-' || t[0] == '*' || t[0] == '+') && StartsWithSpace(t[1..]))
        || OpensNumbered(t)
        || Run(t, '`') >= 3 || Run(t, '~') >= 3)
  }

  datatype Fence = Fence(mark: char, length: nat)

  function FenceOf(s: string): Option<Fence> {
    var t := LStrip(s);
    if Spaces(s) > 3 then None
    else if Run(t, '`') >= 3 then Some(Fence('`', Run(t, '`')))
    else if Run(t, '~') >= 3 then Some(Fence('~', Run(t, '~')))
    else None
  }

  /** What a line counts as, outside code. */
  datatype Kind = Heading | TableRow | Bullet | Numbered | Prose

  function KindOf(s: string): Kind {
    if IsHeading(s) then Heading
    else if IsTableRow(s) then TableRow
    else if IsBullet(s) then Bullet
    else if IsNumbered(s) then Numbered
    else Prose
  }

  // -------------------------------------------------------------------------
  // Joining two lines
  // -------------------------------------------------------------------------

  /** A break between these two lines, outside code, is soft. */
  predicate Wraps(a: string, b: string) {
    && !Blank(a) && !Blank(b)
    && !EndsWithTwoSpaces(a)
    && !IsTableRow(a) && !IsHeading(a) && !IsBlockStart(b)
    && IsCjk(Last(a)) && IsCjk(First(b))
  }

  function Joined(a: string, b: string): string {
    a + LStrip(b)
  }

  lemma SpacesOf(s: string, k: nat)
    requires k < |s| && !IsSpace(s[k]) && forall j :: 0 <= j < k ==> IsSpace(s[j])
    ensures Spaces(s) == k && !Blank(s)
  {
  }

  lemma DigitsOf(s: string, k: nat)
    requires k < |s| && !IsDigit(s[k]) && forall j :: 0 <= j < k ==> IsDigit(s[j])
    ensures Digits(s) == k
  {
  }

  lemma RunOf(s: string, c: char, k: nat)
    requires k < |s| && s[k] != c && forall j :: 0 <= j < k ==> s[j] == c
    ensures Run(s, c) == k
  {
  }

  /** What comes after a text does not change how it starts. */
  lemma StripJoined(a: string, b: string)
    requires !Blank(a)
    ensures Spaces(Joined(a, b)) == Spaces(a)
    ensures LStrip(Joined(a, b)) == LStrip(a) + LStrip(b)
    ensures !Blank(Joined(a, b)) && First(Joined(a, b)) == First(a)
  {
    SpacesOf(Joined(a, b), Spaces(a));
  }

  lemma LastOf(s: string, k: nat)
    requires k < |s| && !IsSpace(s[k]) && forall j :: k < j < |s| ==> IsSpace(s[j])
    ensures !Blank(s) && LastAt(s) == k
  {
    hide IsSpace;
  }

  lemma LastJoined(a: string, b: string)
    requires !Blank(a) && !Blank(b)
    ensures !Blank(Joined(a, b)) && Last(Joined(a, b)) == Last(b)
  {
    hide IsSpace, Spaces, LastAt;
    var j := Joined(a, b);
    var shift := |a| - Spaces(b);
    assert LastAt(b) >= Spaces(b);
    forall k | Spaces(b) <= k < |b|
      ensures j[k + shift] == b[k]
    {
    }
    forall k | LastAt(b) + shift < k < |j|
      ensures IsSpace(j[k])
    {
      assert j[k] == b[k - shift];
    }
    LastOf(j, LastAt(b) + shift);
  }

  lemma EndJoined(a: string, b: string)
    requires !Blank(b)
    ensures EndsWithTwoSpaces(Joined(a, b)) == EndsWithTwoSpaces(b)
  {
  }

  // -------------------------------------------------------------------------
  // What a line is depends on how it starts, up to its last character at most
  // -------------------------------------------------------------------------

  /** A text with a character at `q` that is no space. */
  lemma GapJoined(t: string, u: string, i: nat, q: nat)
    requires i <= q < |t| && !IsSpace(t[q])
    ensures (t + u)[i..] == t[i..] + u
    ensures StartsWithSpace((t + u)[i..]) == StartsWithSpace(t[i..])
    ensures GapThenText((t + u)[i..]) == GapThenText(t[i..])
  {
    hide IsSpace;
    var g := t[i..];
    assert g[q - i] == t[q];
    SpacesOf(g + u, Spaces(g));
    assert (t + u)[i..] == g + u;
  }

  lemma RunJoined(t: string, u: string, c: char, q: nat)
    requires q < |t| && t[q] != c
    ensures Run(t + u, c) == Run(t, c) <= q
  {
    RunOf(t + u, c, Run(t, c));
  }

  /** A line that ends with a CJK character, but for white space. */
  predicate EndsWithCjk(a: string) {
    !Blank(a) && IsCjk(Last(a))
  }

  lemma LastOfStripped(a: string)
    requires EndsWithCjk(a)
    ensures LastAt(a) >= Spaces(a)
    ensures var t := LStrip(a);
            var q := LastAt(a) - Spaces(a);
            q < |t| && t[q] == Last(a) && IsCjk(t[q]) && !IsSpace(t[q]) && !IsMark(t[q])
  {
    KindsAreApart(Last(a));
    hide IsSpace, IsCjk, IsMark;
  }

  /** All that matters of two lines for joining them. */
  predicate Joins(a: string, b: string) {
    EndsWithCjk(a) && !Blank(b) && IsCjk(First(b)) && !IsBlockStart(b)
  }

  lemma FenceJoined(a: string, b: string)
    requires EndsWithCjk(a)
    ensures FenceOf(Joined(a, b)) == FenceOf(a)
  {
    StripJoined(a, b);
    LastOfStripped(a);
    var t, q := LStrip(a), LastAt(a) - Spaces(a);
    RunJoined(t, LStrip(b), '`', q);
    RunJoined(t, LStrip(b), '~', q);
    hide IsSpace, IsCjk, IsMark, LStrip, Joined;
  }

  lemma HeadingJoined(a: string, b: string)
    requires EndsWithCjk(a)
    ensures IsHeading(Joined(a, b)) == IsHeading(a)
  {
    KindsAreApart(Last(a));
    RunJoined(a, LStrip(b), '#', LastAt(a));
    GapJoined(a, LStrip(b), Run(a, '#'), LastAt(a));
    hide IsSpace, IsCjk, IsMark;
  }

  lemma BulletJoined(a: string, b: string)
    requires EndsWithCjk(a)
    ensures IsBullet(Joined(a, b)) == IsBullet(a)
  {
    StripJoined(a, b);
    LastOfStripped(a);
    var t, q := LStrip(a), LastAt(a) - Spaces(a);
    if q > 0 {
      GapJoined(t, LStrip(b), 1, q);
    }
    hide IsSpace, IsCjk, GapThenText, LStrip, Joined;
  }

  lemma DigitsJoined(t: string, u: string)
    ensures Digits(t) < |t| ==> Digits(t + u) == Digits(t)
    ensures Digits(t) == |t| ==> Digits(t + u) == |t| + Digits(u)
  {
    hide IsDigit;
    if Digits(t) < |t| {
      DigitsOf(t + u, Digits(t));
    } else if Digits(u) < |u| {
      assert (t + u)[|t| + Digits(u)] == u[Digits(u)];
      DigitsOf(t + u, |t| + Digits(u));
    } else if Digits(t + u) < |t + u| {
      assert !IsDigit((t + u)[Digits(t + u)]);
      assert (t + u)[Digits(t + u)] == if Digits(t + u) < |t| then t[Digits(t + u)] else u[Digits(t + u) - |t|];
    }
  }

  /** A text whose last character, at `q`, is no mark, and not followed by one. */
  ghost predicate EndsPlainly(t: string, q: nat) {
    q < |t| && !IsSpace(t[q]) && (forall j :: q <= j < |t| ==> !IsMark(t[j]))
  }

  lemma SpaceIsNoMark(c: char)
    requires IsSpace(c)
    ensures !IsMark(c)
  {
    KindsAreApart(c);
  }

  lemma EndsWithCjkPlainly(a: string)
    requires EndsWithCjk(a)
    ensures LastAt(a) >= Spaces(a) && EndsPlainly(LStrip(a), LastAt(a) - Spaces(a))
  {
    hide Spaces, Digits, LastAt;
    LastOfStripped(a);
    var k := Spaces(a);
    var t, q := LStrip(a), LastAt(a) - k;
    assert forall j :: q < j < |t| ==> t[j] == a[j + k] && IsSpace(a[j + k]);
    hide IsCjk, IsSpace, IsMark, Last, LStrip;
    forall j | q < j < |t|
      ensures !IsMark(t[j])
    {
      SpaceIsNoMark(t[j]);
    }
  }

  /** The number, if there is one, is over before the last character. */
  lemma OpensNumberedJoined(t: string, u: string, q: nat)
    requires EndsPlainly(t, q) && Digits(t) < |t|
    ensures OpensNumbered(t + u) == OpensNumbered(t)
    ensures StartsNumbered(t + u) == StartsNumbered(t)
  {
    DigitsJoined(t, u);
    if Digits(t) < q {
      GapJoined(t, u, Digits(t) + 1, q);
    }
    hide IsSpace, IsDigit, GapThenText, StartsWithSpace;
  }

  lemma PastFirst(t: string, u: string, i: nat)
    requires i <= |u|
    ensures (t + u)[|t| + i..] == u[i..]
    ensures i < |u| ==> (t + u)[|t| + i] == u[i]
  {
  }

  /** Full-width digits are CJK characters, so a number may grow as lines are joined; but never into a list item. */
  lemma NumberGrows(t: string, u: string)
    requires Digits(t) == |t| && u != "" && !IsMark(u[0]) && !OpensNumbered(u)
    ensures !StartsNumbered(t + u)
  {
    DigitsJoined(t, u);
    hide IsDigit, IsSpace, Digits, Spaces;
    var d := Digits(u);
    if d < |u| {
      PastFirst(t, u, d);
      PastFirst(t, u, d + 1);
    }
  }

  lemma NumberedJoined(a: string, b: string)
    requires Joins(a, b)
    ensures IsNumbered(Joined(a, b)) == IsNumbered(a)
  {
    hide Spaces, Digits, LastAt;
    StripJoined(a, b);
    EndsWithCjkPlainly(a);
    var t, u := LStrip(a), LStrip(b);
    if Digits(t) < |t| {
      hide *;
      OpensNumberedJoined(t, u, LastAt(a) - Spaces(a));
    } else {
      AllDigits(t);
      CjkFirst(b);
      hide *;
      NumberGrows(t, u);
    }
  }

  lemma CjkFirst(b: string)
    requires !Blank(b) && IsCjk(First(b)) && !IsBlockStart(b)
    ensures LStrip(b) != "" && !IsMark(LStrip(b)[0]) && !OpensNumbered(LStrip(b))
  {
    KindsAreApart(First(b));
    hide IsSpace, IsCjk, IsMark, OpensNumbered;
  }

  lemma AllDigits(t: string)
    requires Digits(t) == |t|
    ensures !StartsNumbered(t) && !OpensNumbered(t)
  {
  }

  lemma KindJoined(a: string, b: string)
    requires Joins(a, b)
    ensures KindOf(Joined(a, b)) == KindOf(a)
    ensures FenceOf(Joined(a, b)) == FenceOf(a)
  {
    StripJoined(a, b);
    FenceJoined(a, b);
    HeadingJoined(a, b);
    BulletJoined(a, b);
    NumberedJoined(a, b);
  }

  lemma BlockStartJoined(a: string, b: string)
    requires EndsWithCjk(a)
    ensures IsBlockStart(a) ==> IsBlockStart(Joined(a, b))
  {
    hide Spaces, Digits, Run, LastAt;
    StripJoined(a, b);
    LastOfStripped(a);
    EndsWithCjkPlainly(a);
    var t, u, q := LStrip(a), LStrip(b), LastAt(a) - Spaces(a);
    hide IsSpace, IsCjk, IsDigit, LStrip, Joined, OpensNumbered, EndsPlainly;
    RunJoined(t, u, '#', q);
    RunJoined(t, u, '`', q);
    RunJoined(t, u, '~', q);
    GapJoined(t, u, Run(t, '#'), q);
    if q > 0 {
      GapJoined(t, u, 1, q);
    }
    if Digits(t) < |t| {
      OpensNumberedJoined(t, u, q);
    } else {
      AllDigits(t);
    }
    hide IsMark, StartsWithSpace;
  }

  /** A line that is joined to the one above counts for nothing by itself. */
  lemma JoinedIsProse(b: string)
    requires !Blank(b) && !IsBlockStart(b)
    ensures KindOf(b) == Prose && FenceOf(b) == None
  {
    KindsAreApart('#');
    hide IsSpace, IsDigit;
    if b[0] == '#' {
      SpacesOf(b, 0);
      assert LStrip(b) == b;
    }
  }

  // -------------------------------------------------------------------------
  // Pages
  // -------------------------------------------------------------------------

  /** The fence that is open after a line. */
  function NextFence(open: Option<Fence>, line: string): Option<Fence> {
    var here := FenceOf(line);
    if open.None? then here
    else if here.Some? && here.value.mark == open.value.mark && here.value.length >= open.value.length then None
    else open
  }

  function OpenFence(lines: seq<string>): Option<Fence> {
    if lines == [] then None else NextFence(OpenFence(lines[..|lines| - 1]), lines[|lines| - 1])
  }

  /** A line is inside a code block, or opens one. */
  predicate InCode(open: Option<Fence>, line: string) {
    open.Some? || FenceOf(line).Some?
  }

  predicate IsInside(lines: seq<string>, i: nat)
    requires i < |lines|
  {
    InCode(OpenFence(lines[..i]), lines[i])
  }

  /** How many code blocks are opened. */
  function Opened(lines: seq<string>): nat {
    if lines == [] then 0
    else
      var before, last := lines[..|lines| - 1], lines[|lines| - 1];
      Opened(before) + if OpenFence(before).None? && FenceOf(last).Some? then 1 else 0
  }

  predicate Counts(lines: seq<string>, i: nat, body: nat, kind: Kind)
    requires i < |lines|
  {
    i >= body && !IsInside(lines, i) && KindOf(lines[i]) == kind
  }

  /** How many lines of a kind there are outside code, from line `body` on. */
  function Count(lines: seq<string>, body: nat, kind: Kind): nat {
    if lines == [] then 0
    else Count(lines[..|lines| - 1], body, kind) + if Counts(lines, |lines| - 1, body, kind) then 1 else 0
  }

  predicate IsRule(line: string) {
    !Blank(line) && LastAt(line) >= Spaces(line) && line[Spaces(line)..LastAt(line) + 1] == "---"
  }

  /** The first rule from `i` on, or the end. */
  function NextRule(lines: seq<string>, i: nat): (k: nat)
    requires i <= |lines|
    ensures i <= k <= |lines|
    ensures forall j :: i <= j < k ==> !IsRule(lines[j])
    ensures k < |lines| ==> IsRule(lines[k])
    decreases |lines| - i
  {
    if i == |lines| || IsRule(lines[i]) then i else NextRule(lines, i + 1)
  }

  /** Where the page begins: after the front matter, if it has one that ends. */
  function BodyOf(lines: seq<string>): (k: nat)
    ensures k <= |lines|
  {
    if lines == [] || !IsRule(lines[0]) || NextRule(lines, 1) == |lines| then 0 else NextRule(lines, 1) + 1
  }

  /** The break before line `n` is soft, if the page has begun. */
  predicate WrapsAt(lines: seq<string>, n: nat) {
    0 < n < |lines| && !IsInside(lines, n - 1) && !IsInside(lines, n) && Wraps(lines[n - 1], lines[n])
  }

  predicate SoftFrom(lines: seq<string>, n: nat, body: nat) {
    body < n && WrapsAt(lines, n)
  }

  predicate IsSoft(lines: seq<string>, n: nat) {
    SoftFrom(lines, n, BodyOf(lines))
  }

  /** The lines with their soft breaks gone, when the page begins at `body`. */
  function Reflowed(lines: seq<string>, body: nat): (out: seq<string>)
    ensures |out| <= |lines| && (lines != [] ==> out != [])
  {
    if lines == [] then []
    else
      var last := |lines| - 1;
      var out := Reflowed(lines[..last], body);
      if body < last && WrapsAt(lines, last) then out[|out| - 1 := Joined(out[|out| - 1], lines[last])] else out + [lines[last]]
  }

  // -------------------------------------------------------------------------
  // One line more
  // -------------------------------------------------------------------------

  lemma OneMore(lines: seq<string>, line: string)
    ensures OpenFence(lines + [line]) == NextFence(OpenFence(lines), line)
    ensures Opened(lines + [line]) == Opened(lines) + if OpenFence(lines).None? && FenceOf(line).Some? then 1 else 0
    ensures IsInside(lines + [line], |lines|) == InCode(OpenFence(lines), line)
  {
    assert (lines + [line])[..|lines|] == lines;
    hide FenceOf, NextFence, InCode;
  }

  lemma CountOneMore(lines: seq<string>, line: string, body: nat, kind: Kind)
    ensures Count(lines + [line], body, kind)
         == Count(lines, body, kind)
            + if |lines| >= body && !InCode(OpenFence(lines), line) && KindOf(line) == kind then 1 else 0
  {
    assert (lines + [line])[..|lines|] == lines;
    hide FenceOf, InCode, KindOf, OpenFence;
  }

  lemma InsideEarlier(lines: seq<string>, line: string, i: nat)
    requires i < |lines|
    ensures IsInside(lines + [line], i) == IsInside(lines, i)
  {
    assert (lines + [line])[..i] == lines[..i];
    hide InCode, OpenFence;
  }

  lemma WrapsEarlier(lines: seq<string>, line: string, n: nat)
    requires n < |lines|
    ensures WrapsAt(lines + [line], n) == WrapsAt(lines, n)
  {
    hide IsInside, Wraps;
    InsideEarlier(lines, line, n);
    if n > 0 {
      InsideEarlier(lines, line, n - 1);
    }
  }

  lemma WrapsLast(lines: seq<string>, line: string)
    requires lines != []
    ensures WrapsAt(lines + [line], |lines|)
       <==> !IsInside(lines, |lines| - 1) && !InCode(OpenFence(lines), line) && Wraps(lines[|lines| - 1], line)
  {
    OneMore(lines, line);
    InsideEarlier(lines, line, |lines| - 1);
    hide IsInside, Wraps, InCode, OpenFence;
  }

  lemma ReflowedOneMore(lines: seq<string>, line: string, body: nat)
    ensures var out := Reflowed(lines, body);
            Reflowed(lines + [line], body)
            == if body < |lines| && WrapsAt(lines + [line], |lines|) then out[..|out| - 1] + [Joined(out[|out| - 1], line)]
               else out + [line]
  {
    assert (lines + [line])[..|lines|] == lines;
    hide WrapsAt, Joined;
    var out := Reflowed(lines, body);
    if lines != [] {
      assert forall x :: out[|out| - 1 := x] == out[..|out| - 1] + [x];
    }
  }

  // -------------------------------------------------------------------------
  // What is kept as lines are joined
  // -------------------------------------------------------------------------

  /** A line of the result ends like the last line that went into it, and is what that line is. */
  predicate Similar(g: string, l: string) {
    && Blank(g) == Blank(l)
    && (!Blank(l) ==> Last(g) == Last(l) && EndsWithTwoSpaces(g) == EndsWithTwoSpaces(l))
    && (IsTableRow(l) ==> IsTableRow(g)) && (IsHeading(l) ==> IsHeading(g))
  }

  predicate Sim(lines: seq<string>, out: seq<string>, body: nat) {
    && |out| <= |lines| && (lines != [] ==> out != [])
    && (|lines| <= body ==> out == lines)
    && (|lines| > body ==> |out| > body)
    && OpenFence(out) == OpenFence(lines) && Opened(out) == Opened(lines)
    && (lines != [] ==>
          && Similar(out[|out| - 1], lines[|lines| - 1])
          && IsInside(out, |out| - 1) == IsInside(lines, |lines| - 1))
  }

  ghost predicate SameCounts(lines: seq<string>, out: seq<string>, body: nat) {
    forall kind :: kind != Prose ==> Count(out, body, kind) == Count(lines, body, kind)
  }

  ghost predicate NoneSoft(lines: seq<string>, body: nat) {
    forall n: nat :: body < n ==> !WrapsAt(lines, n)
  }

  lemma SimilarWraps(g: string, l: string, b: string)
    requires Similar(g, l) && Wraps(g, b)
    ensures Wraps(l, b)
  {
    hide IsCjk, IsTableRow, IsHeading, IsBlockStart, Blank, Last, First, EndsWithTwoSpaces;
  }

  lemma AppendKeepsSim(lines: seq<string>, out: seq<string>, line: string, body: nat)
    requires Sim(lines, out, body)
    ensures Sim(lines + [line], out + [line], body)
  {
    OneMore(lines, line);
    OneMore(out, line);
    hide OpenFence, Opened, InCode, FenceOf, IsInside, IsTableRow, IsHeading, Blank, Last, EndsWithTwoSpaces;
  }

  lemma AppendKeepsNoneSoft(lines: seq<string>, out: seq<string>, line: string, body: nat)
    requires Sim(lines, out, body) && NoneSoft(out, body)
    requires !(body < |lines| && WrapsAt(lines + [line], |lines|))
    ensures NoneSoft(out + [line], body)
  {
    hide OpenFence, Opened, InCode, IsInside, Similar, Wraps;
    forall n: nat | body < n
      ensures !WrapsAt(out + [line], n)
    {
      if n < |out| {
        WrapsEarlier(out, line, n);
      } else if n == |out| && out != [] {
        WrapsLast(out, line);
        WrapsLast(lines, line);
        if Wraps(out[n - 1], line) {
          SimilarWraps(out[n - 1], lines[|lines| - 1], line);
        }
      }
    }
  }

  lemma AppendKeepsCounts(lines: seq<string>, out: seq<string>, line: string, body: nat)
    requires Sim(lines, out, body) && SameCounts(lines, out, body)
    ensures SameCounts(lines + [line], out + [line], body)
  {
    hide OpenFence, Opened, InCode, IsInside, Similar, KindOf, Count;
    forall kind | kind != Prose
      ensures Count(out + [line], body, kind) == Count(lines + [line], body, kind)
    {
      CountOneMore(lines, line, body, kind);
      CountOneMore(out, line, body, kind);
    }
  }

  /** What the last two lines that are joined have to do with each other. */
  lemma LastJoins(lines: seq<string>, g: string, line: string)
    requires lines != [] && Similar(g, lines[|lines| - 1]) && WrapsAt(lines + [line], |lines|)
    ensures Joins(g, line) && !InCode(OpenFence(lines), line) && !IsInside(lines, |lines| - 1)
    ensures KindOf(line) == Prose && FenceOf(line) == None
  {
    WrapsLast(lines, line);
    JoinedIsProse(line);
    hide IsCjk, IsInside, IsBlockStart, IsTableRow, IsHeading, Blank, Last, First, EndsWithTwoSpaces, InCode, OpenFence;
  }

  lemma JoinKeepsSim(lines: seq<string>, before: seq<string>, g: string, line: string, body: nat)
    requires Sim(lines, before + [g], body)
    requires lines != [] && body < |lines| && WrapsAt(lines + [line], |lines|)
    ensures Sim(lines + [line], before + [Joined(g, line)], body)
  {
    var j := Joined(g, line);
    LastJoins(lines, g, line);
    OneMore(lines, line);
    OneMore(before, g);
    OneMore(before, j);
    KindJoined(g, line);
    LastJoined(g, line);
    EndJoined(g, line);
    assert OpenFence(lines) == None && NextFence(None, line) == None;
    assert InCode(OpenFence(before), g) == InCode(OpenFence(before), j);
    assert NextFence(OpenFence(before), g) == NextFence(OpenFence(before), j);
    assert !IsTableRow(line) && !IsHeading(line);
    hide *;
    assert OpenFence(lines + [line]) == OpenFence(lines);
    JoinedSimilar(g, line);
    SimJoined(lines, before, g, line, body);
  }

  lemma JoinedSimilar(g: string, line: string)
    requires Joins(g, line) && !IsTableRow(line) && !IsHeading(line)
    ensures Similar(Joined(g, line), line)
  {
    LastJoined(g, line);
    EndJoined(g, line);
    hide IsTableRow, IsHeading, Blank, Last, EndsWithTwoSpaces, Joined;
  }

  lemma SimJoined(lines: seq<string>, before: seq<string>, g: string, line: string, body: nat)
    requires Sim(lines, before + [g], body) && lines != [] && body < |lines|
    requires var j := Joined(g, line);
      && OpenFence(lines + [line]) == OpenFence(lines) && Opened(lines + [line]) == Opened(lines)
      && OpenFence(before + [j]) == OpenFence(before + [g]) && Opened(before + [j]) == Opened(before + [g])
      && Similar(j, line)
      && IsInside(before + [j], |before|) == IsInside(before + [g], |before|)
      && IsInside(lines + [line], |lines|) == IsInside(lines, |lines| - 1)
    ensures Sim(lines + [line], before + [Joined(g, line)], body)
  {
    var j := Joined(g, line);
    assert |before| + 1 > body;
    hide *;
    SimFrom(lines + [line], before, j, body);
  }

  /** What is needed of a result that ends with `j`, when its page has begun. */
  lemma SimFrom(lines: seq<string>, before: seq<string>, j: string, body: nat)
    requires lines != [] && |before| < |lines| && |lines| > body && |before| + 1 > body
    requires OpenFence(before + [j]) == OpenFence(lines) && Opened(before + [j]) == Opened(lines)
    requires Similar(j, lines[|lines| - 1])
    requires IsInside(before + [j], |before|) == IsInside(lines, |lines| - 1)
    ensures Sim(lines, before + [j], body)
  {
    var out := before + [j];
    assert |out| == |before| + 1 && out[|out| - 1] == j;
    hide OpenFence, Opened, IsInside, Similar;
  }

  /** A line that grows at its end does not become one that the line above wraps into. */
  lemma GrownWraps(h: string, g: string, line: string)
    requires Joins(g, line) && Wraps(h, Joined(g, line))
    ensures Wraps(h, g)
  {
    StripJoined(g, line);
    BlockStartJoined(g, line);
    hide IsCjk, IsTableRow, IsHeading, IsBlockStart, Blank, Last, First, EndsWithTwoSpaces, Joined;
  }

  lemma JoinKeepsNoneSoft(lines: seq<string>, before: seq<string>, g: string, line: string, body: nat)
    requires Sim(lines, before + [g], body) && NoneSoft(before + [g], body)
    requires lines != [] && body < |lines| && WrapsAt(lines + [line], |lines|)
    ensures NoneSoft(before + [Joined(g, line)], body)
  {
    var j := Joined(g, line);
    LastJoins(lines, g, line);
    KindJoined(g, line);
    assert InCode(OpenFence(before), g) == InCode(OpenFence(before), j);
    hide OpenFence, InCode, IsInside, Wraps, Joins, Joined, Sim;
    forall n: nat | body < n
      ensures !WrapsAt(before + [j], n)
    {
      assert !WrapsAt(before + [g], n);
      if n < |before| {
        WrapsEarlier(before, j, n);
        WrapsEarlier(before, g, n);
      } else if n == |before| && before != [] {
        WrapsLast(before, j);
        WrapsLast(before, g);
        if Wraps(before[n - 1], j) {
          GrownWraps(before[n - 1], g, line);
        }
      }
    }
  }

  lemma JoinKeepsCounts(lines: seq<string>, before: seq<string>, g: string, line: string, body: nat)
    requires Sim(lines, before + [g], body) && SameCounts(lines, before + [g], body)
    requires lines != [] && body < |lines| && WrapsAt(lines + [line], |lines|)
    ensures SameCounts(lines + [line], before + [Joined(g, line)], body)
  {
    var j := Joined(g, line);
    LastJoins(lines, g, line);
    KindJoined(g, line);
    assert InCode(OpenFence(before), g) == InCode(OpenFence(before), j);
    hide OpenFence, InCode, IsInside, Joins, Joined, Sim, KindOf, Count, WrapsAt;
    forall kind | kind != Prose
      ensures Count(before + [j], body, kind) == Count(lines + [line], body, kind)
    {
      CountOneMore(lines, line, body, kind);
      CountOneMore(before, j, body, kind);
      CountOneMore(before, g, body, kind);
    }
  }

  ghost predicate Kept(lines: seq<string>, out: seq<string>, body: nat) {
    Sim(lines, out, body) && NoneSoft(out, body) && SameCounts(lines, out, body)
  }

  lemma AppendKeeps(lines: seq<string>, out: seq<string>, line: string, body: nat)
    requires Kept(lines, out, body) && !(body < |lines| && WrapsAt(lines + [line], |lines|))
    ensures Kept(lines + [line], out + [line], body)
  {
    hide Sim, NoneSoft, SameCounts, WrapsAt;
    AppendKeepsSim(lines, out, line, body);
    AppendKeepsNoneSoft(lines, out, line, body);
    AppendKeepsCounts(lines, out, line, body);
  }

  lemma JoinKeeps(lines: seq<string>, before: seq<string>, g: string, line: string, body: nat)
    requires Kept(lines, before + [g], body)
    requires lines != [] && body < |lines| && WrapsAt(lines + [line], |lines|)
    ensures Kept(lines + [line], before + [Joined(g, line)], body)
  {
    hide Sim, NoneSoft, SameCounts, WrapsAt;
    JoinKeepsSim(lines, before, g, line, body);
    JoinKeepsNoneSoft(lines, before, g, line, body);
    JoinKeepsCounts(lines, before, g, line, body);
  }

  lemma NoLinesKept(body: nat)
    ensures Kept([], Reflowed([], body), body)
  {
  }

  lemma {:induction false} ReflowedKeeps(lines: seq<string>, body: nat)
    ensures Kept(lines, Reflowed(lines, body), body)
  {
    hide *;
    if lines == [] {
      NoLinesKept(body);
    } else {
      var before, line := lines[..|lines| - 1], lines[|lines| - 1];
      var out := Reflowed(before, body);
      assert lines == before + [line];
      ReflowedKeeps(before, body);
      ReflowedOneMore(before, line, body);
      if body < |before| && WrapsAt(before + [line], |before|) {
        var init, g := out[..|out| - 1], out[|out| - 1];
        assert out == init + [g];
        JoinKeeps(before, init, g, line, body);
      } else {
        AppendKeeps(before, out, line, body);
      }
    }
  }

  // -------------------------------------------------------------------------
  // The front matter stays
  // -------------------------------------------------------------------------

  /** Lines that were joined are no rule, so no rule appears; and those of the front matter stay. */
  ghost predicate SameRules(lines: seq<string>, out: seq<string>, body: nat) {
    && (|lines| >= body ==> |out| >= body && out[..body] == lines[..body])
    && (|lines| < body ==> out == lines)
    && (lines != [] ==> out != [] && (IsRule(out[0]) ==> IsRule(lines[0])))
    && (forall i :: 1 <= i < |out| && IsRule(out[i]) ==> exists n :: 1 <= n < |lines| && IsRule(lines[n]))
  }

  lemma RuleIsDashes(line: string, k: nat)
    requires IsRule(line) && Spaces(line) <= k <= LastAt(line)
    ensures line[k] == '-'
  {
    hide Spaces, LastAt;
    var text := line[Spaces(line)..LastAt(line) + 1];
    assert text[k - Spaces(line)] == line[k];
  }

  lemma JoinedIsNoRule(g: string, line: string)
    requires Joins(g, line)
    ensures !IsRule(Joined(g, line))
  {
    var j := Joined(g, line);
    StripJoined(g, line);
    LastOfStripped(g);
    KindsAreApart(Last(g));
    hide IsSpace, IsCjk, Spaces, LastAt, IsBlockStart, IsRule;
    assert j[LastAt(g)] == Last(g) != '-';
    if IsRule(j) {
      if LastAt(j) >= LastAt(g) {
        RuleIsDashes(j, LastAt(g));
      }
    }
  }

  lemma AppendKeepsRules(lines: seq<string>, out: seq<string>, line: string, body: nat)
    requires SameRules(lines, out, body) && |out| <= |lines|
    ensures SameRules(lines + [line], out + [line], body)
  {
    hide IsRule;
    var more := out + [line];
    forall i | 1 <= i < |more| && IsRule(more[i])
      ensures exists n :: 1 <= n < |lines + [line]| && IsRule((lines + [line])[n])
    {
      if i < |out| {
        var n :| 1 <= n < |lines| && IsRule(lines[n]);
        assert (lines + [line])[n] == lines[n];
      } else {
        assert (lines + [line])[|lines|] == line;
      }
    }
  }

  lemma JoinKeepsRules(lines: seq<string>, before: seq<string>, g: string, line: string, body: nat)
    requires SameRules(lines, before + [g], body) && lines != [] && body <= |before|
    requires |lines| > body && !IsRule(Joined(g, line))
    ensures SameRules(lines + [line], before + [Joined(g, line)], body)
  {
    hide IsRule, Joined;
    var out := before + [Joined(g, line)];
    assert forall i :: 0 <= i < |before| ==> (before + [g])[i] == out[i];
    assert out[..body] == before[..body] == (before + [g])[..body];
    forall i | 1 <= i < |out| && IsRule(out[i])
      ensures exists n :: 1 <= n < |lines + [line]| && IsRule((lines + [line])[n])
    {
      assert IsRule((before + [g])[i]);
      var n :| 1 <= n < |lines| && IsRule(lines[n]);
      assert (lines + [line])[n] == lines[n];
    }
  }

  lemma KeptShape(lines: seq<string>, out: seq<string>, body: nat)
    requires Kept(lines, out, body)
    ensures |out| <= |lines| && (|lines| > body ==> |out| > body)
    ensures lines != [] ==> out != [] && Similar(out[|out| - 1], lines[|lines| - 1])
  {
    hide NoneSoft, SameCounts, Similar, OpenFence, Opened, IsInside;
  }

  lemma NoLinesNoRules(body: nat)
    ensures SameRules([], Reflowed([], body), body)
  {
  }

  lemma {:induction false} ReflowedKeepsRules(lines: seq<string>, body: nat)
    ensures SameRules(lines, Reflowed(lines, body), body)
  {
    hide *;
    if lines == [] {
      NoLinesNoRules(body);
    } else {
      var before, line := lines[..|lines| - 1], lines[|lines| - 1];
      var out := Reflowed(before, body);
      ReflowedKeepsRules(before, body);
      ReflowedKeeps(before, body);
      assert lines == before + [line];
      ReflowedOneMore(before, line, body);
      KeptShape(before, out, body);
      if body < |before| && WrapsAt(before + [line], |before|) {
        var init, g := out[..|out| - 1], out[|out| - 1];
        assert out == init + [g];
        LastJoins(before, g, line);
        JoinedIsNoRule(g, line);
        JoinKeepsRules(before, init, g, line, body);
      } else {
        AppendKeepsRules(before, out, line, body);
      }
    }
  }

  lemma BodyIsKept(lines: seq<string>)
    ensures BodyOf(Reflowed(lines, BodyOf(lines))) == BodyOf(lines)
  {
    var body := BodyOf(lines);
    var out := Reflowed(lines, body);
    ReflowedKeepsRules(lines, body);
    hide IsRule, Reflowed;
    if body > 0 {
      assert out[..body] == lines[..body];
      assert forall i :: 0 <= i < body ==> out[i] == lines[i];
    }
  }

  // -------------------------------------------------------------------------
  // The theorems
  // -------------------------------------------------------------------------

  /** After one pass there is nothing left to join. */
  lemma ReachesItsFixpoint(lines: seq<string>, n: nat)
    ensures !IsSoft(Reflowed(lines, BodyOf(lines)), n)
  {
    ReflowedKeeps(lines, BodyOf(lines));
    BodyIsKept(lines);
    hide Reflowed, WrapsAt, BodyOf;
  }

  /** What `structure` reports of a page. */
  datatype Structure = Structure(bullets: nat, numbered: nat, headings: nat, fences: nat, rows: nat, unbalanced: bool)

  function StructureOf(lines: seq<string>): Structure {
    var body := BodyOf(lines);
    Structure(Count(lines, body, Bullet), Count(lines, body, Numbered), Count(lines, body, Heading), Opened(lines),
              Count(lines, body, TableRow), OpenFence(lines).Some?)
  }

  lemma StructureIsKept(lines: seq<string>)
    ensures StructureOf(Reflowed(lines, BodyOf(lines))) == StructureOf(lines)
  {
    ReflowedKeeps(lines, BodyOf(lines));
    BodyIsKept(lines);
    hide Reflowed, BodyOf, Count, Opened, OpenFence;
  }

  /** Line `a` and those after it up to `b`, each but the first without its leading white space. */
  function Glued(lines: seq<string>, a: nat, b: nat): string
    requires a < b <= |lines|
  {
    if b == a + 1 then lines[a] else Glued(lines, a, b - 1) + LStrip(lines[b - 1])
  }

  predicate IsGroup(lines: seq<string>, a: nat, b: nat, text: string, body: nat) {
    && a < b <= |lines| && text == Glued(lines, a, b)
    && (a > body ==> !WrapsAt(lines, a))
    && forall n :: a < n < b ==> SoftFrom(lines, n, body)
  }

  /** Each line of the result is made of the lines from one hard break to the next. */
  ghost predicate Groups(lines: seq<string>, out: seq<string>, starts: seq<nat>, body: nat) {
    && |starts| == |out| + 1 && starts[0] == 0 && starts[|out|] == |lines|
    && forall m :: 0 <= m < |out| ==> IsGroup(lines, starts[m], starts[m + 1], out[m], body)
  }

  lemma GluedOneMore(lines: seq<string>, line: string, a: nat, b: nat)
    requires a < b <= |lines|
    ensures Glued(lines + [line], a, b) == Glued(lines, a, b)
  {
    if b > a + 1 {
      GluedOneMore(lines, line, a, b - 1);
    }
  }

  lemma GroupOneMore(lines: seq<string>, line: string, a: nat, b: nat, text: string, body: nat)
    requires IsGroup(lines, a, b, text, body)
    ensures IsGroup(lines + [line], a, b, text, body)
  {
    GluedOneMore(lines, line, a, b);
    WrapsEarlier(lines, line, a);
    hide WrapsAt, Glued;
    forall n | a < n < b
      ensures SoftFrom(lines + [line], n, body)
    {
      assert SoftFrom(lines, n, body);
      WrapsEarlier(lines, line, n);
    }
  }

  lemma GroupGrows(lines: seq<string>, line: string, a: nat, text: string, body: nat)
    requires IsGroup(lines, a, |lines|, text, body) && body < |lines| && WrapsAt(lines + [line], |lines|)
    ensures IsGroup(lines + [line], a, |lines| + 1, Joined(text, line), body)
  {
    GroupOneMore(lines, line, a, |lines|, text, body);
    hide WrapsAt;
  }

  lemma GroupOfOne(lines: seq<string>, line: string, body: nat)
    requires !(body < |lines| && WrapsAt(lines + [line], |lines|))
    ensures IsGroup(lines + [line], |lines|, |lines| + 1, line, body)
  {
    hide WrapsAt;
  }

  lemma GroupsOneMore(lines: seq<string>, out: seq<string>, s: seq<nat>, line: string, body: nat) returns (starts: seq<nat>)
    requires Groups(lines, out, s, body) && (lines != [] ==> out != [])
    ensures var joins := body < |lines| && WrapsAt(lines + [line], |lines|);
            Groups(lines + [line], if joins then out[..|out| - 1] + [Joined(out[|out| - 1], line)] else out + [line], starts, body)
  {
    hide WrapsAt, IsGroup, Joined;
    forall m | 0 <= m < |out|
      ensures IsGroup(lines + [line], s[m], s[m + 1], out[m], body)
    {
      GroupOneMore(lines, line, s[m], s[m + 1], out[m], body);
    }
    if body < |lines| && WrapsAt(lines + [line], |lines|) {
      starts := s[..|out|] + [|lines| + 1];
      GroupGrows(lines, line, s[|out| - 1], out[|out| - 1], body);
    } else {
      starts := s + [|lines| + 1];
      GroupOfOne(lines, line, body);
    }
  }

  /** The text is as it was, but for the soft breaks and the white space after them. */
  lemma {:induction false} TextIsKept(lines: seq<string>, body: nat) returns (starts: seq<nat>)
    ensures Groups(lines, Reflowed(lines, body), starts, body)
  {
    if lines == [] {
      starts := [0];
    } else {
      var before, line := lines[..|lines| - 1], lines[|lines| - 1];
      var s := TextIsKept(before, body);
      hide *;
      assert lines == before + [line];
      ReflowedOneMore(before, line, body);
      starts := GroupsOneMore(before, Reflowed(before, body), s, line, body);
    }
  }

  // -------------------------------------------------------------------------
  // The checker's loops
  // -------------------------------------------------------------------------

  /** Marks the lines inside code blocks, counts the blocks, and says whether one is left open. */
  method Fenced(lines: seq<string>) returns (inside: array<bool>, count: nat, open: bool)
    ensures fresh(inside) && inside.Length == |lines|
    ensures forall i :: 0 <= i < |lines| ==> inside[i] == IsInside(lines, i)
    ensures count == Opened(lines) && open == OpenFence(lines).Some?
  {
    hide FenceOf;
    inside := new bool[|lines|](_ => false);
    count := 0;
    var fence: Option<Fence> := None;
    for i := 0 to |lines|
      invariant fence == OpenFence(lines[..i]) && count == Opened(lines[..i])
      invariant forall j :: 0 <= j < i ==> inside[j] == IsInside(lines, j)
      invariant forall j :: i <= j < |lines| ==> !inside[j]
    {
      OneMore(lines[..i], lines[i]);
      assert lines[..i + 1] == lines[..i] + [lines[i]];
      var here := FenceOf(lines[i]);
      if fence.None? {
        if here.Some? {
          fence := here;
          inside[i] := true;
          count := count + 1;
        }
      } else {
        inside[i] := true;
        if here.Some? && here.value.mark == fence.value.mark && here.value.length >= fence.value.length {
          fence := None;
        }
      }
    }
    assert lines[..|lines|] == lines;
    open := fence.Some?;
  }

  method Body(lines: seq<string>) returns (start: nat)
    ensures start == BodyOf(lines)
  {
    hide IsRule;
    if lines == [] || !IsRule(lines[0]) {
      return 0;
    }
    for i := 1 to |lines|
      invariant NextRule(lines, 1) >= i
    {
      if IsRule(lines[i]) {
        return i + 1;
      }
    }
    start := 0;
  }

  lemma SoftIff(lines: seq<string>, n: nat)
    ensures IsSoft(lines, n) ==> BodyOf(lines) < n < |lines|
    ensures BodyOf(lines) < n < |lines| ==>
              (IsSoft(lines, n) <==> !IsInside(lines, n - 1) && !IsInside(lines, n) && Wraps(lines[n - 1], lines[n]))
  {
    hide BodyOf, IsInside, Wraps;
  }

  /** The soft breaks up to a line, all of them and in order. */
  ghost predicate SoftUpTo(lines: seq<string>, found: seq<nat>, i: nat) {
    && (forall n: nat :: n in found <==> n <= i && IsSoft(lines, n))
    && (forall j, k :: 0 <= j < k < |found| ==> found[j] < found[k])
  }

  lemma SoftNext(lines: seq<string>, found: seq<nat>, i: nat)
    requires SoftUpTo(lines, found, i)
    ensures SoftUpTo(lines, if IsSoft(lines, i + 1) then found + [i + 1] else found, i + 1)
  {
    hide IsSoft;
    var longer := if IsSoft(lines, i + 1) then found + [i + 1] else found;
    forall n: nat ensures n in longer <==> n <= i + 1 && IsSoft(lines, n) {
      assert n in longer <==> n in found || (IsSoft(lines, i + 1) && n == i + 1);
    }
    forall j | 0 <= j < |found| ensures found[j] <= i {
      assert found[j] in found;
    }
  }

  lemma SoftToEnd(lines: seq<string>, found: seq<nat>, i: nat)
    requires SoftUpTo(lines, found, i) && |lines| <= i + 1
    ensures forall n: nat :: n in found <==> IsSoft(lines, n)
    ensures forall j, k :: 0 <= j < k < |found| ==> found[j] < found[k]
  {
    forall n: nat {
      SoftIff(lines, n);
    }
    hide IsSoft;
  }

  /** The lines that a soft break comes before, in order. */
  method SoftBreaks(lines: seq<string>) returns (found: seq<nat>)
    ensures forall n: nat :: n in found <==> IsSoft(lines, n)
    ensures forall j, k :: 0 <= j < k < |found| ==> found[j] < found[k]
  {
    var start := Body(lines);
    var inside, _, _ := Fenced(lines);
    found := [];
    hide BodyOf, IsInside, Wraps, IsSoft;
    forall n: nat {
      SoftIff(lines, n);
    }
    assert SoftUpTo(lines, found, start);
    hide SoftUpTo;
    if start + 1 < |lines| {
      for i := start to |lines| - 1
        invariant forall j :: 0 <= j < |lines| ==> inside[j] == IsInside(lines, j)
        invariant SoftUpTo(lines, found, i)
      {
        SoftIff(lines, i + 1);
        SoftNext(lines, found, i);
        if !inside[i] && !inside[i + 1] && Wraps(lines[i], lines[i + 1]) {
          found := found + [i + 1];
        }
      }
    }
    SoftToEnd(lines, found, if start + 1 < |lines| then |lines| - 1 else start);
  }

  /** Joins every line that a soft break comes before to the end of the last line written. */
  method Reflow(lines: seq<string>) returns (out: seq<string>)
    ensures out == Reflowed(lines, BodyOf(lines))
  {
    var breaks := SoftBreaks(lines);
    hide BodyOf, Joined, WrapsAt;
    out := [];
    for k := 0 to |lines|
      invariant out == Reflowed(lines[..k], BodyOf(lines))
    {
      assert lines[..k + 1] == lines[..k] + [lines[k]];
      ReflowedOneMore(lines[..k], lines[k], BodyOf(lines));
      WrapsInPrefix(lines, k);
      assert k in breaks <==> IsSoft(lines, k);
      if out != [] && k in breaks {
        out := out[..|out| - 1] + [Joined(out[|out| - 1], lines[k])];
      } else {
        out := out + [lines[k]];
      }
    }
    assert lines[..|lines|] == lines;
  }

  lemma WrapsInPrefix(lines: seq<string>, k: nat)
    requires k < |lines|
    ensures WrapsAt(lines[..k + 1], k) == WrapsAt(lines, k)
  {
    assert lines[..k + 1][..k] == lines[..k];
    if k > 0 {
      assert lines[..k + 1][..k - 1] == lines[..k - 1];
    }
    hide Wraps, OpenFence, InCode;
  }
}
