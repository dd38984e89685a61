/**
  Whose lock is it?  A holder string ends in a process id, or carries one before
  an `@`.  Comparing holders without that part is what lets the next command of
  a job recognise the lock its last command left.
*/
module HolderRule {
  import opened Options

  predicate IsDigit(c: char) {
    '0' <= c <= '9'
  }

  function DigitRun(s: string): (n: nat)
    ensures n <= |s| && forall i :: 0 <= i < n ==> IsDigit(s[i])
    ensures n < |s| ==> !IsDigit(s[n])
  {
    if s == "" || !IsDigit(s[0]) then 0 else 1 + DigitRun(s[1..])
  }

  /** How many characters of a process id, with its colon, start here; 0 when none does. */
  function PidLength(s: string): (n: nat)
    ensures n <= |s|
    ensures n > 0 <==>
              && s != "" && s[0] == ':' && DigitRun(s[1..]) > 0
              && (DigitRun(s[1..]) == |s| - 1 || s[1 + DigitRun(s[1..])] == '@')
  {
    if s == "" || s[0] != ':' then 0
    else
      var n := DigitRun(s[1..]);
      if n > 0 && (n == |s| - 1 || s[1 + n] == '@') then 1 + n else 0
  }

  /** The identity with its per-process part removed. */
  function LockScope(s: string): string
    decreases |s|
  {
    if s == "" then ""
    else
      var n := PidLength(s);
      if n > 0 then LockScope(s[n..]) else [s[0]] + LockScope(s[1..])
  }

  function SplitColons(s: string): (parts: seq<string>)
    ensures |parts| >= 1
  {
    if s == "" then [""]
    else
      var rest := SplitColons(s[1..]);
      if s[0] == ':' then [""] + rest else [[s[0]] + rest[0]] + rest[1..]
  }

  /** The email in a holder that another tool wrote as `<origin>:<id>:<name>:<email>`. */
  function HolderEmail(stored: string): Option<string> {
    if "ci:" <= stored then None
    else
      var parts := SplitColons(stored);
      if |parts| == 4 && parts[0] != "" && parts[1] != "" && parts[2] != "" && '@' !in parts[2] && '@' in parts[3]
      then Some(parts[3])
      else None
  }

  function LowerCase(s: string): string {
    seq(|s|, i requires 0 <= i < |s| => if 'A' <= s[i] <= 'Z' then s[i] - 'A' + 'a' else s[i])
  }

  /** The one rule that every holder comparison of the client goes through. */
  predicate HolderIsOurs(stored: string, holder: string, user: string, coarseScopeOk: bool) {
    && stored != ""
    && (|| (holder != "" && stored == holder)
        || (holder != "" && LockScope(stored) == LockScope(holder) && (coarseScopeOk || !("ci:generic:" <= stored)))
        || (user != "" && stored == user)
        || (var email := HolderEmail(stored);
            email.Some? && email.value != "" && '@' in user && LowerCase(email.value) == LowerCase(user)))
  }

  // -------------------------------------------------------------------------
  // The promise: another process of one job has the same scope
  // -------------------------------------------------------------------------

  predicate IsPid(digits: string) {
    digits != "" && forall c :: c in digits ==> IsDigit(c)
  }

  lemma {:induction false} DigitRunBefore(digits: string, rest: string)
    requires forall c :: c in digits ==> IsDigit(c)
    requires rest == "" || !IsDigit(rest[0])
    ensures DigitRun(digits + rest) == |digits|
  {
    if digits == "" {
      assert digits + rest == rest;
    } else {
      DigitRunBefore(digits[1..], rest);
      assert (digits + rest)[1..] == digits[1..] + rest;
    }
  }

  /** A run of digits that stops inside `s` does not look past it; one that reaches the end stops at the colon. */
  lemma {:induction false} DigitRunUpToColon(s: string, rest: string)
    requires rest != "" && rest[0] == ':'
    ensures DigitRun(s + rest) == DigitRun(s)
  {
    if s == "" {
      assert s + rest == rest;
    } else {
      DigitRunUpToColon(s[1..], rest);
      assert (s + rest)[1..] == s[1..] + rest;
    }
  }

  lemma PidIsDropped(pid: string, tail: string)
    requires IsPid(pid) && (tail == "" || tail[0] == '@')
    ensures LockScope(":" + pid + tail) == LockScope(tail)
  {
    var s := ":" + pid + tail;
    assert s[1..] == pid + tail;
    DigitRunBefore(pid, tail);
    assert PidLength(s) == 1 + |pid|;
    assert s[1 + |pid|..] == tail;
  }

  /** Before a colon, a process id is recognised only where an `@` ends it. */
  function InnerPidLength(head: string): (n: nat)
    requires head != ""
    ensures n <= |head|
  {
    var n := DigitRun(head[1..]);
    if head[0] == ':' && 0 < n < |head| - 1 && head[1 + n] == '@' then 1 + n else 0
  }

  lemma PidLengthBeforeColon(head: string, rest: string)
    requires head != "" && rest != "" && rest[0] == ':'
    ensures PidLength(head + rest) == InnerPidLength(head)
  {
    var s := head + rest;
    DigitRunUpToColon(head[1..], rest);
    assert s[1..] == head[1..] + rest;
    var n := DigitRun(head[1..]);
    assert n < |s| - 1;
    assert s[1 + n] == if n < |head| - 1 then head[1 + n] else ':';
  }

  /** One scanning step. */
  lemma ScopeUnfolds(s: string, n: nat)
    requires s != "" && n == PidLength(s)
    ensures LockScope(s) == if n > 0 then LockScope(s[n..]) else [s[0]] + LockScope(s[1..])
  {
    hide PidLength;
  }

  /** One scanning step, over a head that the colon follows. */
  lemma ScopeStep(head: string, rest: string)
    requires head != "" && rest != "" && rest[0] == ':'
    ensures var n := InnerPidLength(head);
            LockScope(head + rest) ==
              if n > 0 then LockScope(head[n..] + rest) else [head[0]] + LockScope(head[1..] + rest)
  {
    hide *;
    var n := InnerPidLength(head);
    PidLengthBeforeColon(head, rest);
    ScopeUnfolds(head + rest, n);
    DropHead(head, rest, 1);
    DropHead(head, rest, n);
  }

  lemma DropHead(head: string, rest: string, n: nat)
    requires n <= |head|
    ensures (head + rest)[n..] == head[n..] + rest
  {
  }

  /** Whatever the provider puts around it, the process id does not reach the scope. */
  lemma {:induction false} SameJobAnyPid(head: string, pid1: string, pid2: string, tail: string)
    requires IsPid(pid1) && IsPid(pid2) && (tail == "" || tail[0] == '@')
    ensures LockScope(head + (":" + pid1 + tail)) == LockScope(head + (":" + pid2 + tail))
    decreases |head|
  {
    var r1, r2 := ":" + pid1 + tail, ":" + pid2 + tail;
    if head == "" {
      assert head + r1 == r1 && head + r2 == r2;
      PidIsDropped(pid1, tail);
      PidIsDropped(pid2, tail);
    } else {
      ScopeStep(head, r1);
      ScopeStep(head, r2);
      var n := InnerPidLength(head);
      SameJobAnyPid(head[if n > 0 then n else 1..], pid1, pid2, tail);
    }
  }

  /** Two processes of one job recognise each other's lock. */
  lemma SiblingIsOurs(head: string, pid1: string, pid2: string, tail: string, user: string)
    requires IsPid(pid1) && IsPid(pid2) && (tail == "" || tail[0] == '@')
    ensures HolderIsOurs(head + (":" + pid1 + tail), head + (":" + pid2 + tail), user, true)
  {
    SameJobAnyPid(head, pid1, pid2, tail);
  }

  // -------------------------------------------------------------------------
  // What a scope is, position by position
  // -------------------------------------------------------------------------

  /** A process id with its colon stands at `a..b`: digits, and then the end or an at sign. */
  predicate PidAt(s: string, a: nat, b: nat) {
    && a + 1 < b <= |s|
    && s[a] == ':'
    && (forall k :: a < k < b ==> '0' <= s[k] <= '9')
    && (b == |s| || s[b] == '@')
  }

  ghost predicate InPid(s: string, i: nat) {
    exists a: nat, b: nat :: a <= i < b && PidAt(s, a, b)
  }

  /** What is left from `i` on of a text without its process ids. */
  ghost function WithoutPids(s: string, i: nat): string
    requires i <= |s|
    decreases |s| - i
  {
    if i == |s| then "" else (if InPid(s, i) then "" else [s[i]]) + WithoutPids(s, i + 1)
  }

  lemma PidLengthIff(s: string, a: nat, b: nat)
    requires a < b <= |s|
    ensures PidAt(s, a, b) <==> PidLength(s[a..]) == b - a
  {
    var t := s[a..];
    assert t[1..] == s[a + 1..];
    var n := DigitRun(t[1..]);
    assert forall k :: 0 <= k < |t| ==> t[k] == s[a + k];
    if PidAt(s, a, b) {
      assert forall k :: 0 <= k < b - a - 1 ==> IsDigit(t[1..][k]);
    }
    if PidLength(t) == b - a {
      forall k | a < k < b ensures '0' <= s[k] <= '9' {
        assert IsDigit(t[1..][k - a - 1]);
      }
    }
  }

  /** The scanner's place is never inside a process id. */
  ghost predicate Between(s: string, k: nat) {
    forall a: nat, b: nat :: a < k < b ==> !PidAt(s, a, b)
  }

  lemma AfterPid(s: string, k: nat, b: nat)
    requires PidAt(s, k, b)
    ensures Between(s, b) && WithoutPids(s, k) == WithoutPids(s, b)
  {
    PidIsLeftOut(s, k, b, k);
  }

  lemma {:induction false} PidIsLeftOut(s: string, a: nat, b: nat, i: nat)
    requires PidAt(s, a, b) && a <= i <= b
    ensures WithoutPids(s, i) == WithoutPids(s, b)
    decreases b - i
  {
    if i < b {
      assert InPid(s, i);
      PidIsLeftOut(s, a, b, i + 1);
    }
  }

  lemma AfterOther(s: string, k: nat)
    requires k < |s| && Between(s, k) && PidLength(s[k..]) == 0
    ensures !InPid(s, k) && Between(s, k + 1)
  {
    forall a: nat, b: nat | a <= k < b ensures !PidAt(s, a, b) {
      if a == k && b <= |s| {
        PidLengthIff(s, k, b);
      }
    }
  }

  lemma ScopeAtEnd(s: string)
    ensures LockScope(s[|s|..]) == "" == WithoutPids(s, |s|)
  {
  }

  /** One scanning step, from `k` on. */
  lemma ScopeAt(s: string, k: nat, n: nat)
    requires k < |s| && n == PidLength(s[k..])
    ensures LockScope(s[k..]) == if n > 0 then LockScope(s[k + n..]) else [s[k]] + LockScope(s[k + 1..])
  {
    hide *;
    ScopeUnfolds(s[k..], n);
    assert s[k..][n..] == s[k + n..] && s[k..][1..] == s[k + 1..];
  }

  lemma StepsOver(s: string, i: nat)
    requires i < |s|
    ensures WithoutPids(s, i) == (if InPid(s, i) then "" else [s[i]]) + WithoutPids(s, i + 1)
  {
    hide InPid;
  }

  lemma {:induction false} ScopeFrom(s: string, k: nat)
    requires k <= |s| && Between(s, k)
    ensures LockScope(s[k..]) == WithoutPids(s, k)
    decreases |s| - k
  {
    hide *;
    if k == |s| {
      ScopeAtEnd(s);
    } else {
      var n := PidLength(s[k..]);
      ScopeAt(s, k, n);
      if n > 0 {
        PidLengthIff(s, k, k + n);
        AfterPid(s, k, k + n);
        ScopeFrom(s, k + n);
      } else {
        AfterOther(s, k);
        StepsOver(s, k);
        ScopeFrom(s, k + 1);
      }
    }
  }

  /** The scope is the holder less every process id in it, and nothing else is changed. */
  lemma ScopeIsWithoutPids(s: string)
    ensures LockScope(s) == WithoutPids(s, 0)
  {
    ScopeFrom(s, 0);
    assert s[0..] == s;
  }

  // -------------------------------------------------------------------------
  // When two holders are of one job
  // -------------------------------------------------------------------------

  /** The one process id of `head + ":" + pid + tail` is the one it was built with. */
  ghost predicate OnePid(head: string, pid: string, tail: string) {
    var s := head + (":" + pid + tail);
    forall a: nat, b: nat :: PidAt(s, a, b) ==> a == |head|
  }

  lemma {:induction false} HeadIsKept(s: string, h: nat, i: nat)
    requires i <= h <= |s| && forall k :: i <= k < h ==> !InPid(s, k)
    ensures WithoutPids(s, i) == s[i..h] + WithoutPids(s, h)
    decreases h - i
  {
    hide *;
    if i == h {
      assert s[i..h] == "";
    } else {
      StepsOver(s, i);
      HeadIsKept(s, h, i + 1);
      assert [s[i]] + s[i + 1..h] == s[i..h];
    }
  }

  lemma NothingIsLeft(s: string)
    ensures WithoutPids(s, |s|) == ""
  {
  }

  lemma PidStands(head: string, pid: string, tail: string)
    requires IsPid(pid) && (tail == "" || tail[0] == '@')
    ensures var s, h, e := head + (":" + pid + tail), |head|, |head| + 1 + |pid|;
            PidAt(s, h, e) && forall b: nat :: PidAt(s, h, b) ==> b <= e
  {
    var s, h, e := head + (":" + pid + tail), |head|, |head| + 1 + |pid|;
    assert forall k :: h < k < e ==> s[k] == pid[k - h - 1] && s[k] in pid;
    assert e < |s| ==> s[e] == tail[0];
  }

  lemma NoPidElsewhere(head: string, pid: string, tail: string)
    requires IsPid(pid) && (tail == "" || tail[0] == '@') && OnePid(head, pid, tail)
    ensures var s, h, e := head + (":" + pid + tail), |head|, |head| + 1 + |pid|;
            && (forall k :: 0 <= k < h ==> !InPid(s, k))
            && (forall k :: e <= k < |s| ==> !InPid(s, k))
  {
    PidStands(head, pid, tail);
    hide PidAt;
  }

  /** The scope of a holder is what stands around its process id. */
  lemma ScopeOfHolder(head: string, pid: string, tail: string)
    requires IsPid(pid) && (tail == "" || tail[0] == '@') && OnePid(head, pid, tail)
    ensures LockScope(head + (":" + pid + tail)) == head + tail
  {
    var s, h, e := head + (":" + pid + tail), |head|, |head| + 1 + |pid|;
    PidStands(head, pid, tail);
    NoPidElsewhere(head, pid, tail);
    hide *;
    ScopeIsWithoutPids(s);
    HeadIsKept(s, h, 0);
    PidIsLeftOut(s, h, e, h);
    HeadIsKept(s, |s|, e);
    NothingIsLeft(s);
    assert s[0..h] == head && s[e..|s|] == tail;
  }

  /** Holders are of one job exactly if the same stands around their process ids. */
  lemma SameScopeIff(head1: string, pid1: string, tail1: string, head2: string, pid2: string, tail2: string)
    requires IsPid(pid1) && (tail1 == "" || tail1[0] == '@') && OnePid(head1, pid1, tail1)
    requires IsPid(pid2) && (tail2 == "" || tail2[0] == '@') && OnePid(head2, pid2, tail2)
    ensures LockScope(head1 + (":" + pid1 + tail1)) == LockScope(head2 + (":" + pid2 + tail2))
            <==> head1 + tail1 == head2 + tail2
  {
    ScopeOfHolder(head1, pid1, tail1);
    ScopeOfHolder(head2, pid2, tail2);
  }

  /** A host, after the at sign that may follow a process id. */
  predicate IsHostPart(tail: string) {
    tail != "" && tail[0] == '@' && '@' !in tail[1..]
  }

  lemma LastAtSign(head: string, tail: string)
    requires IsHostPart(tail)
    ensures var s := head + tail;
            s[|head|] == '@' && forall k :: |head| < k < |s| ==> s[k] != '@'
  {
    var s := head + tail;
    forall k | |head| < k < |s| ensures s[k] != '@' {
      assert s[k] == tail[1..][k - |head| - 1];
    }
  }

  /** So with the process id in the same place, head and tail must each be the same. */
  lemma SameShapeSameJob(head1: string, pid1: string, tail1: string, head2: string, pid2: string, tail2: string)
    requires IsPid(pid1) && OnePid(head1, pid1, tail1) && IsPid(pid2) && OnePid(head2, pid2, tail2)
    requires (tail1 == "" && tail2 == "") || (IsHostPart(tail1) && IsHostPart(tail2))
    ensures LockScope(head1 + (":" + pid1 + tail1)) == LockScope(head2 + (":" + pid2 + tail2))
            <==> head1 == head2 && tail1 == tail2
  {
    SameScopeIff(head1, pid1, tail1, head2, pid2, tail2);
    if head1 + tail1 == head2 + tail2 {
      if tail1 == "" {
        assert head1 + "" == head1 && head2 + "" == head2;
      } else {
        LastAtSign(head1, tail1);
        LastAtSign(head2, tail2);
        var s := head1 + tail1;
        assert forall k :: |head1| < k < |s| ==> s[k] != '@';
        assert s[..|head1|] == head1 && s[..|head2|] == head2 && s[|head1|..] == tail1 && s[|head2|..] == tail2;
      }
    }
  }

  /** In different places it can stand in holders of one scope that are not built alike. */
  lemma OtherShapeSameScope()
    ensures LockScope("j@h:1") == LockScope("j:1@h") == "j@h"
  {
    assert "j@h:1" == "j@h" + (":" + "1" + "") && "j:1@h" == "j" + (":" + "1" + "@h");
    assert "j@h" + "" == "j@h" && "j" + "@h" == "j@h";
    ScopeOfHolder("j@h", "1", "");
    ScopeOfHolder("j", "1", "@h");
  }

  // -------------------------------------------------------------------------
  // Emails
  // -------------------------------------------------------------------------

  predicate SameLetter(a: char, b: char) {
    || a == b
    || ('A' <= a <= 'Z' && b as int == a as int + 32)
    || ('A' <= b <= 'Z' && a as int == b as int + 32)
  }

  predicate SameButForCase(a: string, b: string) {
    |a| == |b| && forall i :: 0 <= i < |a| ==> SameLetter(a[i], b[i])
  }

  lemma LowerCaseIff(a: string, b: string)
    ensures LowerCase(a) == LowerCase(b) <==> SameButForCase(a, b)
  {
    if LowerCase(a) == LowerCase(b) {
      assert |LowerCase(a)| == |a| && |LowerCase(b)| == |b|;
      forall i | 0 <= i < |a| ensures SameLetter(a[i], b[i]) {
        assert LowerCase(a)[i] == LowerCase(b)[i];
      }
    }
  }

  /** The form in which other tools write a holder: four parts, an email last. */
  predicate Signed(stored: string, origin: string, id: string, name: string, email: string) {
    && stored == origin + (":" + (id + (":" + (name + (":" + email)))))
    && ':' !in origin && ':' !in id && ':' !in name && ':' !in email
    && origin != "" && id != "" && name != "" && '@' !in name && '@' in email
    && !("ci:" <= stored)
  }

  lemma {:induction false} SplitNone(s: string)
    requires ':' !in s
    ensures SplitColons(s) == [s]
  {
    if s != "" {
      SplitNone(s[1..]);
      assert [s[0]] + s[1..] == s;
      assert [[s[0]] + s[1..]] + [] == [s];
    }
  }

  lemma {:induction false} SplitFirst(part: string, rest: string)
    requires ':' !in part
    ensures SplitColons(part + (":" + rest)) == [part] + SplitColons(rest)
  {
    var s := part + (":" + rest);
    if part == "" {
      assert s == ":" + rest && s[1..] == rest;
    } else {
      SplitFirst(part[1..], rest);
      assert s[1..] == part[1..] + (":" + rest);
      assert [s[0]] + part[1..] == part;
      assert ([part[1..]] + SplitColons(rest))[1..] == SplitColons(rest);
    }
  }

  /** Where the first colon stands, or the end. */
  lemma {:induction false} SplitHead(s: string) returns (part: string, rest: string)
    ensures ':' !in part
    ensures |SplitColons(s)| == 1 ==> s == part && SplitColons(s) == [part]
    ensures |SplitColons(s)| > 1 ==> s == part + (":" + rest) && SplitColons(s) == [part] + SplitColons(rest)
  {
    if s == "" {
      part, rest := "", "";
    } else if s[0] == ':' {
      part, rest := "", s[1..];
      assert s == "" + (":" + rest);
    } else {
      part, rest := SplitHead(s[1..]);
      part := [s[0]] + part;
      assert |SplitColons(s)| > 1 ==> s == part + (":" + rest);
    }
  }

  /** The email of a holder is read exactly where one was written. */
  lemma HolderEmailIff(stored: string, email: string)
    ensures HolderEmail(stored) == Some(email) <==> exists origin, id, name :: Signed(stored, origin, id, name, email)
  {
    if HolderEmail(stored) == Some(email) {
      var origin, rest := SplitHead(stored);
      var id, more := SplitHead(rest);
      var name, last := SplitHead(more);
      var final, _ := SplitHead(last);
      assert Signed(stored, origin, id, name, email);
    }
    forall origin, id, name | Signed(stored, origin, id, name, email)
      ensures HolderEmail(stored) == Some(email)
    {
      SplitFirst(origin, id + (":" + (name + (":" + email))));
      SplitFirst(id, name + (":" + email));
      SplitFirst(name, email);
      SplitNone(email);
    }
  }

  // -------------------------------------------------------------------------
  // When a lock is ours, and when it is not
  // -------------------------------------------------------------------------

  /** Both are of one job: what is left without process ids is the same. */
  ghost predicate SameJob(stored: string, holder: string) {
    holder != "" && WithoutPids(stored, 0) == WithoutPids(holder, 0)
  }

  ghost predicate CarriesEmailOf(stored: string, user: string) {
    '@' in user && exists origin, id, name, email ::
      Signed(stored, origin, id, name, email) && SameButForCase(email, user)
  }

  /** Exactly the locks that are ours: our own, our job's, our user's, and those with our user's email. */
  ghost predicate Ours(stored: string, holder: string, user: string, coarseScopeOk: bool) {
    && stored != ""
    && (|| stored == holder
        || (SameJob(stored, holder) && (coarseScopeOk || !("ci:generic:" <= stored)))
        || stored == user
        || CarriesEmailOf(stored, user))
  }

  lemma EmailIsOursIff(stored: string, user: string)
    ensures CarriesEmailOf(stored, user) <==>
              var email := HolderEmail(stored);
              email.Some? && '@' in user && LowerCase(email.value) == LowerCase(user)
  {
    hide HolderEmail, LowerCase, SameButForCase, Signed;
    var read := HolderEmail(stored);
    if read.Some? {
      HolderEmailIff(stored, read.value);
      LowerCaseIff(read.value, user);
    }
    forall origin, id, name, email | Signed(stored, origin, id, name, email)
      ensures read == Some(email)
    {
      HolderEmailIff(stored, email);
    }
  }

  lemma OursIff(stored: string, holder: string, user: string, coarseScopeOk: bool)
    ensures HolderIsOurs(stored, holder, user, coarseScopeOk) <==> Ours(stored, holder, user, coarseScopeOk)
  {
    ScopeIsWithoutPids(stored);
    ScopeIsWithoutPids(holder);
    EmailIsOursIff(stored, user);
    hide LockScope, WithoutPids, CarriesEmailOf, LowerCase;
  }

  /** Another job's holder, which is neither the plain user nor signed with its email, is not ours. */
  lemma StrangerIsNotOurs(
      head1: string, pid1: string, tail1: string, head2: string, pid2: string, tail2: string, user: string, coarseScopeOk: bool)
    requires IsPid(pid1) && (tail1 == "" || tail1[0] == '@') && OnePid(head1, pid1, tail1)
    requires IsPid(pid2) && (tail2 == "" || tail2[0] == '@') && OnePid(head2, pid2, tail2)
    requires head1 + tail1 != head2 + tail2
    requires var stored := head1 + (":" + pid1 + tail1); stored != user && !CarriesEmailOf(stored, user)
    ensures !HolderIsOurs(head1 + (":" + pid1 + tail1), head2 + (":" + pid2 + tail2), user, coarseScopeOk)
  {
    var stored, holder := head1 + (":" + pid1 + tail1), head2 + (":" + pid2 + tail2);
    SameScopeIff(head1, pid1, tail1, head2, pid2, tail2);
    ScopeIsWithoutPids(stored);
    ScopeIsWithoutPids(holder);
    OursIff(stored, holder, user, coarseScopeOk);
  }

  /** Unlocking takes no sibling's lock on a generic runner: only one's own, the user's, or one with its email. */
  lemma GenericSiblingIsNotOurs(stored: string, holder: string, user: string)
    requires "ci:generic:" <= stored
    ensures HolderIsOurs(stored, holder, user, false) <==> stored == holder || stored == user
  {
    OursIff(stored, holder, user, false);
  }
}
