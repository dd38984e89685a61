/**
  The cap on how often a guarded command may be called on one net: a fixed
  window for each net and command, opened by the first call that finds the last
  one over.
*/
module RateLimit {
  import opened Options

  datatype Window = Window(start: real, count: nat)

  /** The window that a call falls into, counting it. */
  function Counted(window: Option<Window>, now: real, length: real): Window {
    if window.None? || now - window.value.start >= length then Window(now, 1)
    else Window(window.value.start, window.value.count + 1)
  }

  function CountedAt<Key(==)>(windows: map<Key, Window>, key: Key, now: real, length: real): map<Key, Window> {
    windows[key := Counted(if key in windows then Some(windows[key]) else None, now, length)]
  }

  class RateLimiter<Key(==)> {
    var windows: map<Key, Window>

    constructor ()
      ensures windows == map[]
    {
      windows := map[];
    }

    /** A call is counted even if it is refused; no other key is touched. */
    method CheckRate(key: Key, now: real, length: real, maxCalls: nat) returns (exceeded: bool)
      modifies this
      ensures windows == CountedAt(old(windows), key, now, length)
      ensures exceeded <==> windows[key].count > maxCalls
    {
      var start, count := now, 0;
      if key in windows {
        start, count := windows[key].start, windows[key].count;
      }
      if now - start >= length {
        start, count := now, 0;
      }
      count := count + 1;
      windows := windows[key := Window(start, count)];
      exceeded := count > maxCalls;
    }
  }

  // -------------------------------------------------------------------------
  // One key over a run
  // -------------------------------------------------------------------------

  /** The window after the first `k` calls. */
  function After(times: seq<real>, k: nat, length: real): (window: Option<Window>)
    requires k <= |times|
    ensures window.Some? <==> k > 0
    ensures window.Some? ==> window.value.count >= 1
  {
    if k == 0 then None else Some(Counted(After(times, k - 1, length), times[k - 1], length))
  }

  predicate Admitted(times: seq<real>, k: nat, length: real, maxCalls: nat)
    requires k < |times|
  {
    After(times, k + 1, length).value.count <= maxCalls
  }

  /** How many of the calls from `lo` up to `hi` are admitted. */
  function AdmittedIn(times: seq<real>, lo: nat, hi: nat, length: real, maxCalls: nat): nat
    requires lo <= hi <= |times|
    decreases hi
  {
    if lo == hi then 0
    else AdmittedIn(times, lo, hi - 1, length, maxCalls) + if Admitted(times, hi - 1, length, maxCalls) then 1 else 0
  }

  ghost predicate Ordered(times: seq<real>) {
    forall a, b :: 0 <= a <= b < |times| ==> times[a] <= times[b]
  }

  /** The window that call `k` fell into. */
  function StartOf(times: seq<real>, k: nat, length: real): real
    requires k < |times|
  {
    After(times, k + 1, length).value.start
  }

  /** Windows open in order, and a new one no earlier than a whole length after the last. */
  lemma {:induction false} WindowsAreApart(times: seq<real>, a: nat, b: nat, length: real)
    requires Ordered(times) && a <= b < |times| && length > 0.0
    ensures StartOf(times, a, length) <= times[a]
    ensures StartOf(times, b, length) == StartOf(times, a, length)
            || (StartOf(times, b, length) >= StartOf(times, a, length) + length
                && exists c :: a < c <= b && StartOf(times, b, length) == times[c])
  {
    if a == b {
      if a > 0 {
        WindowsAreApart(times, a - 1, a - 1, length);
      }
    } else {
      WindowsAreApart(times, a, b - 1, length);
    }
  }

  /** Calls in one window are counted one by one. */
  lemma {:induction false} CountsUp(times: seq<real>, a: nat, b: nat, length: real)
    requires Ordered(times) && a <= b < |times| && length > 0.0
    requires StartOf(times, a, length) == StartOf(times, b, length)
    ensures After(times, b + 1, length).value.count == After(times, a + 1, length).value.count + (b - a)
  {
    if a < b {
      WindowsAreApart(times, a, b - 1, length);
      WindowsAreApart(times, b - 1, b, length);
      CountsUp(times, a, b - 1, length);
    }
  }

  /** So of the calls in one window, at most so many are admitted, less those that it had already counted. */
  lemma {:induction false} AtMostPerWindow(times: seq<real>, lo: nat, hi: nat, length: real, maxCalls: nat)
    requires Ordered(times) && lo < hi <= |times| && length > 0.0
    requires StartOf(times, lo, length) == StartOf(times, hi - 1, length)
    ensures AdmittedIn(times, lo, hi, length, maxCalls) <= maxCalls
    ensures After(times, lo + 1, length).value.count <= maxCalls ==>
              AdmittedIn(times, lo, hi, length, maxCalls) + After(times, lo + 1, length).value.count <= maxCalls + 1
    ensures After(times, lo + 1, length).value.count > maxCalls ==> AdmittedIn(times, lo, hi, length, maxCalls) == 0
  {
    if lo + 1 < hi {
      WindowsAreApart(times, lo, hi - 2, length);
      WindowsAreApart(times, hi - 2, hi - 1, length);
      AtMostPerWindow(times, lo, hi - 1, length, maxCalls);
      CountsUp(times, lo, hi - 1, length);
      AdmittedAtMost(times, lo, hi - 1, length, maxCalls);
    }
  }

  lemma {:induction false} AdmittedAtMost(times: seq<real>, lo: nat, hi: nat, length: real, maxCalls: nat)
    requires lo <= hi <= |times|
    ensures AdmittedIn(times, lo, hi, length, maxCalls) <= hi - lo
    decreases hi
  {
    if lo < hi {
      AdmittedAtMost(times, lo, hi - 1, length, maxCalls);
    }
  }

  lemma {:induction false} AdmittedSplits(times: seq<real>, lo: nat, mid: nat, hi: nat, length: real, maxCalls: nat)
    requires lo <= mid <= hi <= |times|
    ensures AdmittedIn(times, lo, hi, length, maxCalls)
         == AdmittedIn(times, lo, mid, length, maxCalls) + AdmittedIn(times, mid, hi, length, maxCalls)
    decreases hi
  {
    if mid < hi {
      AdmittedSplits(times, lo, mid, hi - 1, length, maxCalls);
    }
  }

  /** The first call from `lo` on that opens a window of its own. */
  lemma {:induction false} FirstOpening(times: seq<real>, lo: nat, hi: nat, length: real) returns (mid: nat)
    requires Ordered(times) && lo < hi <= |times| && length > 0.0
    ensures lo < mid <= hi
    ensures StartOf(times, mid - 1, length) == StartOf(times, lo, length)
    ensures mid < hi ==> StartOf(times, mid, length) == times[mid]
  {
    mid := lo + 1;
    while mid < hi && StartOf(times, mid, length) == StartOf(times, lo, length)
      invariant lo < mid <= hi
      invariant StartOf(times, mid - 1, length) == StartOf(times, lo, length)
    {
      mid := mid + 1;
    }
    if mid < hi {
      WindowsAreApart(times, mid - 1, mid, length);
    }
  }

  /**
    Whenever an interval as long as a window is looked at, closed at its start
    and open at its end, fewer than twice as many calls are admitted in it as in
    a window: it can see the end of one window and the start of the next, but the
    call that opened the first of the two only if it does not see the second.
  */
  lemma AtMostInAnyInterval(times: seq<real>, lo: nat, hi: nat, from: real, length: real, maxCalls: nat)
    requires Ordered(times) && lo <= hi <= |times| && length > 0.0 && maxCalls > 0
    requires forall k :: lo <= k < hi ==> from <= times[k] < from + length
    ensures AdmittedIn(times, lo, hi, length, maxCalls) <= 2 * maxCalls - 1
  {
    if lo < hi {
      var mid := FirstOpening(times, lo, hi, length);
      AdmittedSplits(times, lo, mid, hi, length, maxCalls);
      AtMostPerWindow(times, lo, mid, length, maxCalls);
      if mid < hi {
        WindowsAreApart(times, mid, hi - 1, length);
        AtMostPerWindow(times, mid, hi, length, maxCalls);
        if lo == 0 || StartOf(times, lo, length) == times[lo] {
          WindowsAreApart(times, lo, mid, length);
        } else {
          assert After(times, lo, length).Some?;
        }
      }
    }
  }

  /** A window was opened by the call that its count leads back to, less than its length ago. */
  lemma {:induction false} OpenedBy(times: seq<real>, k: nat, length: real)
    requires Ordered(times) && k < |times| && length > 0.0
    ensures var window := After(times, k + 1, length).value;
            window.count <= k + 1 && window.start == times[k + 1 - window.count] && times[k] - window.start < length
  {
    if k > 0 {
      OpenedBy(times, k - 1, length);
    }
  }

  /** A call is admitted if the one as many places before it as the cap allows was a window ago. */
  lemma SlowIsAdmitted(times: seq<real>, k: nat, length: real, maxCalls: nat)
    requires Ordered(times) && k < |times| && length > 0.0 && maxCalls > 0
    requires k >= maxCalls ==> times[k - maxCalls] <= times[k] - length
    ensures Admitted(times, k, length, maxCalls)
  {
    OpenedBy(times, k, length);
    assert k >= maxCalls ==> forall j :: 0 <= j <= k - maxCalls ==> times[j] <= times[k] - length;
  }

  /** Calls for which that bound is reached, whatever the cap. */
  function Burst(maxCalls: nat, length: real): (times: seq<real>)
    ensures |times| == 2 * maxCalls
  {
    seq(2 * maxCalls, k => if k == 0 then 0.0 else if k < maxCalls then length / 2.0 else length)
  }

  lemma {:induction false} BurstCounts(maxCalls: nat, length: real, k: nat)
    requires length > 0.0 && 0 < k <= 2 * maxCalls
    ensures After(Burst(maxCalls, length), k, length)
         == Some(if k <= maxCalls then Window(0.0, k) else Window(length, k - maxCalls))
  {
    if k > 1 {
      BurstCounts(maxCalls, length, k - 1);
    }
  }

  lemma {:induction false} BurstIsAdmitted(maxCalls: nat, length: real, hi: nat)
    requires length > 0.0 && maxCalls > 0 && 1 <= hi <= 2 * maxCalls
    ensures AdmittedIn(Burst(maxCalls, length), 1, hi, length, maxCalls) == hi - 1
    decreases hi
  {
    if hi > 1 {
      BurstIsAdmitted(maxCalls, length, hi - 1);
      BurstCounts(maxCalls, length, hi);
    }
  }

  /** So the bound is the best there is. */
  lemma BoundIsReached(maxCalls: nat, length: real)
    requires length > 0.0 && maxCalls > 0
    ensures var times := Burst(maxCalls, length);
            && Ordered(times)
            && (forall k :: 1 <= k < |times| ==> length / 2.0 <= times[k] < length / 2.0 + length)
            && AdmittedIn(times, 1, |times|, length, maxCalls) == 2 * maxCalls - 1
  {
    BurstIsAdmitted(maxCalls, length, 2 * maxCalls);
  }

  // -------------------------------------------------------------------------
  // Many keys
  // -------------------------------------------------------------------------

  datatype Event<Key> = Event(key: Key, now: real)

  function AllAfter<Key(==)>(events: seq<Event<Key>>, length: real): map<Key, Window> {
    if events == [] then map[]
    else
      var last := events[|events| - 1];
      CountedAt(AllAfter(events[..|events| - 1], length), last.key, last.now, length)
  }

  function TimesOf<Key(==)>(events: seq<Event<Key>>, key: Key): seq<real> {
    if events == [] then []
    else
      var last := events[|events| - 1];
      TimesOf(events[..|events| - 1], key) + if last.key == key then [last.now] else []
  }

  lemma {:induction false} AfterPrefix(times: seq<real>, k: nat, more: seq<real>, length: real)
    requires k <= |times|
    ensures After(times + more, k, length) == After(times, k, length)
  {
    if k > 0 {
      AfterPrefix(times, k - 1, more, length);
    }
  }

  /** Each key is counted as if it were alone. */
  lemma {:induction false} KeysAreIndependent<Key>(events: seq<Event<Key>>, key: Key, length: real)
    ensures var all := AllAfter(events, length);
            var times := TimesOf(events, key);
            After(times, |times|, length) == if key in all then Some(all[key]) else None
  {
    if events != [] {
      var before := events[..|events| - 1];
      var last := events[|events| - 1];
      KeysAreIndependent(before, key, length);
      if last.key == key {
        AfterPrefix(TimesOf(before, key), |TimesOf(before, key)|, [last.now], length);
        assert TimesOf(events, key)[|TimesOf(before, key)|] == last.now;
      } else {
        assert TimesOf(events, key) == TimesOf(before, key);
      }
    }
  }
}
