/**
  The heartbeat thread of an auto-locked command: when it warns that its lock
  is in danger, and why it warns in time.
*/
module Heartbeat {
  import opened Options
  import opened LockState
  import opened LockRuns

  const WARN_AFTER_FAILURES_NO_TTL := 5

  /** What happens to the thread: a wake-up with the outcome of its renewal, or a call from the command. */
  datatype Signal = Wake(renewed: bool) | Pause | Unpause

  datatype Settings = Settings(interval: int, ttl: Option<int>)

  /** The thread sleeps for whole seconds, at least one. */
  predicate Usable(settings: Settings) {
    settings.interval >= 1
  }

  datatype Counters = Counters(failures: nat, warned: bool, paused: bool)

  /** The unrenewed time has grown to half the lease. */
  predicate Worrying(settings: Settings, failures: nat) {
    if settings.ttl.None? then failures >= WARN_AFTER_FAILURES_NO_TTL
    else 2 * failures * settings.interval >= settings.ttl.value
  }

  function Turn(settings: Settings, counters: Counters, signal: Signal): Counters {
    match signal
    case Pause => counters.(paused := true)
    case Unpause => Counters(0, false, false)
    case Wake(renewed) =>
      if counters.paused then counters
      else if renewed then Counters(0, false, false)
      else Counters(counters.failures + 1, counters.warned || Worrying(settings, counters.failures + 1), false)
  }

  predicate Speaks(settings: Settings, counters: Counters, signal: Signal) {
    signal == Wake(false) && !counters.paused && !counters.warned && Worrying(settings, counters.failures + 1)
  }

  const INITIAL := Counters(0, false, false)

  function After(settings: Settings, signals: seq<Signal>): Counters {
    if signals == [] then INITIAL
    else Turn(settings, After(settings, signals[..|signals| - 1]), signals[|signals| - 1])
  }

  /** The thread prints its warning at signal `i`. */
  predicate WarnsAt(settings: Settings, signals: seq<Signal>, i: nat)
    requires i < |signals|
  {
    Speaks(settings, After(settings, signals[..i]), signals[i])
  }

  // -------------------------------------------------------------------------
  // The thread object
  // -------------------------------------------------------------------------

  class HeartbeatThread {
    const settings: Settings
    var failures: nat
    var warned: bool
    var paused: bool
    var stopped: bool
    var printed: nat

    constructor (interval: int, ttl: Option<int>)
      ensures settings == Settings(if interval < 1 then 1 else interval, ttl)
      ensures View() == INITIAL && !stopped && printed == 0
    {
      settings := Settings(if interval < 1 then 1 else interval, ttl);
      failures, warned, paused, stopped, printed := 0, false, false, false, 0;
    }

    function View(): Counters
      reads this
    {
      Counters(failures, warned, paused)
    }

    method StopThread()
      modifies this`stopped
      ensures stopped
    {
      stopped := true;
    }

    method PauseRenewals()
      modifies this`paused
      ensures View() == Turn(settings, old(View()), Pause)
    {
      paused := true;
    }

    method ResumeRenewals()
      modifies this`failures, this`warned, this`paused
      ensures View() == Turn(settings, old(View()), Unpause)
    {
      failures := 0;
      warned := false;
      paused := false;
    }

    method ShouldWarn() returns (yes: bool)
      ensures yes <==> !warned && Worrying(settings, failures)
    {
      if warned {
        return false;
      }
      if settings.ttl.None? {
        return failures >= WARN_AFTER_FAILURES_NO_TTL;
      }
      yes := 2 * (failures * settings.interval) >= settings.ttl.value;
    }

    /** One pass through the loop of `run`, after its sleep. */
    method OnWake(renewed: bool)
      modifies this`failures, this`warned, this`printed
      ensures View() == Turn(settings, old(View()), Wake(renewed))
      ensures printed == old(printed) + if Speaks(settings, old(View()), Wake(renewed)) then 1 else 0
    {
      if paused {
        return;
      }
      if renewed {
        failures := 0;
        warned := false;
        return;
      }
      failures := failures + 1;
      var warn := ShouldWarn();
      if warn {
        warned := true;
        printed := printed + 1;
      }
    }
  }

  // -------------------------------------------------------------------------
  // When it warns
  // -------------------------------------------------------------------------

  /** The failed renewals since the last success or resumption. */
  function FailuresIn(signals: seq<Signal>): nat {
    if signals == [] then 0
    else
      var before := signals[..|signals| - 1];
      match signals[|signals| - 1]
      case Pause => FailuresIn(before)
      case Unpause => 0
      case Wake(renewed) =>
        if PausedAfter(before) then FailuresIn(before) else if renewed then 0 else FailuresIn(before) + 1
  }

  predicate PausedAfter(signals: seq<Signal>) {
    signals != [] &&
    match signals[|signals| - 1]
    case Pause => true
    case Unpause => false
    case Wake(_) => PausedAfter(signals[..|signals| - 1])
  }

  /** The number of failures in a row that brings the warning. */
  function Needed(settings: Settings): (n: nat)
    requires Usable(settings)
    ensures n >= 1 && Worrying(settings, n) && (n > 1 ==> !Worrying(settings, n - 1))
  {
    match settings.ttl
    case None => WARN_AFTER_FAILURES_NO_TTL
    case Some(ttl) =>
      if ttl <= 2 * settings.interval then 1
      else
        var n := (ttl + 2 * settings.interval - 1) / (2 * settings.interval);
        CeilingBounds(ttl, 2 * settings.interval);
        n
  }

  lemma CeilingBounds(a: int, b: int)
    requires b >= 1 && a > b
    ensures var n := (a + b - 1) / b; n > 1 && n * b >= a && (n - 1) * b < a
  {
    var n := (a + b - 1) / b;
    assert a + b - 1 == n * b + (a + b - 1) % b;
    assert n * b > a - 1;
    assert (n - 1) * b == n * b - b;
    assert n <= 1 ==> n * b <= b;
  }

  lemma WorryGrows(settings: Settings, m: nat, n: nat)
    requires Usable(settings) && m <= n && Worrying(settings, m)
    ensures Worrying(settings, n)
  {
    if settings.ttl.Some? {
      assert n * settings.interval >= m * settings.interval;
    }
  }

  lemma WorryThreshold(settings: Settings, n: nat)
    requires Usable(settings) && n >= 1
    ensures Worrying(settings, n) <==> n >= Needed(settings)
  {
    if n >= Needed(settings) {
      WorryGrows(settings, Needed(settings), n);
    } else if Worrying(settings, n) {
      WorryGrows(settings, n, Needed(settings) - 1);
    }
  }

  /** The counters say how long the current outage is, and whether it has been reported. */
  lemma {:induction false} CountersCount(settings: Settings, signals: seq<Signal>)
    requires Usable(settings)
    ensures var c := After(settings, signals);
            && c.failures == FailuresIn(signals)
            && c.paused == PausedAfter(signals)
            && (c.warned <==> FailuresIn(signals) >= Needed(settings))
  {
    if signals != [] {
      var before := signals[..|signals| - 1];
      CountersCount(settings, before);
      WorryThreshold(settings, FailuresIn(before) + 1);
    }
  }

  /** The warning comes exactly with the failure that completes half the lease. */
  lemma WarnsExactly(settings: Settings, signals: seq<Signal>, i: nat)
    requires Usable(settings) && i < |signals|
    ensures WarnsAt(settings, signals, i) <==>
              && signals[i] == Wake(false) && !PausedAfter(signals[..i])
              && FailuresIn(signals[..i + 1]) == Needed(settings)
  {
    CountersCount(settings, signals[..i]);
    WorryThreshold(settings, FailuresIn(signals[..i]) + 1);
    assert signals[..i + 1][..i] == signals[..i];
  }

  /** A success or a resumption: what starts a new window. */
  predicate Resets(signals: seq<Signal>, k: nat)
    requires k < |signals|
  {
    signals[k] == Unpause || (signals[k] == Wake(true) && !PausedAfter(signals[..k]))
  }

  lemma {:induction false} FailuresOnlyGrow(signals: seq<Signal>, i: nat, j: nat)
    requires i <= j <= |signals|
    requires forall k: nat :: i <= k < j ==> !Resets(signals, k)
    ensures FailuresIn(signals[..i]) <= FailuresIn(signals[..j])
    decreases j
  {
    if i < j {
      FailuresOnlyGrow(signals, i, j - 1);
      assert signals[..j][..j - 1] == signals[..j - 1];
      assert !Resets(signals, j - 1);
    }
  }

  /** No window is reported twice. */
  lemma OneWarningPerWindow(settings: Settings, signals: seq<Signal>, i: nat, j: nat)
    requires Usable(settings) && i < j < |signals|
    requires WarnsAt(settings, signals, i) && WarnsAt(settings, signals, j)
    ensures exists k: nat :: i < k < j && Resets(signals, k)
  {
    WarnsExactly(settings, signals, i);
    WarnsExactly(settings, signals, j);
    assert signals[..j + 1][..j] == signals[..j];
    if forall k: nat :: i < k < j ==> !Resets(signals, k) {
      FailuresOnlyGrow(signals, i + 1, j);
    }
  }

  // -------------------------------------------------------------------------
  // It warns before the lock is lost
  // -------------------------------------------------------------------------

  /** A renewal on the clock, and whether the thread heard that it succeeded. */
  datatype Attempt = Attempt(begin: int, end: int, renewed: bool)

  /** Each attempt takes at most `d`, and starts one interval after the last one ended. */
  ghost predicate Paced(attempts: seq<Attempt>, interval: int, d: int) {
    && (forall i :: 0 <= i < |attempts| ==> attempts[i].begin <= attempts[i].end <= attempts[i].begin + d)
    && (forall i :: 0 < i < |attempts| ==> attempts[i].begin <= attempts[i - 1].end + interval * SECOND)
  }

  function SignalsOf(attempts: seq<Attempt>): seq<Signal> {
    seq(|attempts|, i requires 0 <= i < |attempts| => Wake(attempts[i].renewed))
  }

  lemma {:induction false} EndOfOutage(attempts: seq<Attempt>, interval: int, d: int, k: nat, n: nat)
    requires Paced(attempts, interval, d) && k + n < |attempts| && interval >= 0 && d >= 0
    ensures attempts[k + n].end <= attempts[k].begin + d + n * (interval * SECOND + d)
  {
    if n > 0 {
      EndOfOutage(attempts, interval, d, k, n - 1);
      assert n * (interval * SECOND + d) == (n - 1) * (interval * SECOND + d) + (interval * SECOND + d);
    }
  }

  lemma {:induction false} NeverPaused(attempts: seq<Attempt>, n: nat)
    requires n <= |attempts|
    ensures !PausedAfter(SignalsOf(attempts)[..n])
  {
    if n > 0 {
      NeverPaused(attempts, n - 1);
      assert SignalsOf(attempts)[..n][..n - 1] == SignalsOf(attempts)[..n - 1];
    }
  }

  lemma {:induction false} FailuresOfOutage(attempts: seq<Attempt>, k: nat, n: nat)
    requires k + n < |attempts| && attempts[k].renewed
    requires forall i :: k < i <= k + n ==> !attempts[i].renewed
    ensures FailuresIn(SignalsOf(attempts)[..k + n + 1]) == n
  {
    var signals := SignalsOf(attempts);
    NeverPaused(attempts, k + n);
    assert signals[..k + n + 1][..k + n] == signals[..k + n];
    if n > 0 {
      FailuresOfOutage(attempts, k, n - 1);
    }
  }

  lemma StillLive(interval: int, needed: nat, ttl: int, d: int, attempts: seq<Attempt>, k: nat, n: nat, lock: Lock, h: int)
    requires Paced(attempts, interval, d) && interval >= 0 && d >= 0
    requires k + n < |attempts| && n <= needed
    requires d + needed * (interval * SECOND + d) <= (ttl - 1) * SECOND
    requires attempts[k].begin <= h && StampedAt(lock, h, ttl)
    ensures !Expired(lock, attempts[k + n].end)
  {
    EndOfOutage(attempts, interval, d, k, n);
    var pace := interval * SECOND + d;
    assert n * pace <= needed * pace;
    LeaseEnd(lock, h, ttl, attempts[k + n].end);
  }

  lemma OutageIsReported(settings: Settings, attempts: seq<Attempt>, k: nat)
    requires Usable(settings) && k + Needed(settings) < |attempts| && attempts[k].renewed
    requires forall i :: k < i <= k + Needed(settings) ==> !attempts[i].renewed
    ensures WarnsAt(settings, SignalsOf(attempts), k + Needed(settings))
  {
    FailuresOfOutage(attempts, k, Needed(settings));
    NeverPaused(attempts, k + Needed(settings));
    WarnsExactly(settings, SignalsOf(attempts), k + Needed(settings));
  }

  /**
    Attempt `k` was heard to renew the lock and every attempt since then has
    failed; the box last stamped the lock at `h`, during attempt `k` or later.
    With attempts short enough for the lease, the lock is still live when the
    warning is printed, so no lock with an unpaused heartbeat runs out unreported.
  */
  lemma WarnsBeforeLoss(settings: Settings, ttl: int, d: int, attempts: seq<Attempt>, k: nat, n: nat, lock: Lock, h: int)
    requires Usable(settings) && settings.ttl == Some(ttl) && d >= 0
    requires Paced(attempts, settings.interval, d)
    requires d + Needed(settings) * (settings.interval * SECOND + d) <= (ttl - 1) * SECOND
    requires k + n < |attempts| && attempts[k].renewed && forall i :: k < i <= k + n ==> !attempts[i].renewed
    requires attempts[k].begin <= h && StampedAt(lock, h, ttl)
    ensures n <= Needed(settings) ==> !Expired(lock, attempts[k + n].end)
    ensures n >= Needed(settings) ==> WarnsAt(settings, SignalsOf(attempts), k + Needed(settings))
  {
    if n <= Needed(settings) {
      StillLive(settings.interval, Needed(settings), ttl, d, attempts, k, n, lock, h);
    }
    if n >= Needed(settings) {
      OutageIsReported(settings, attempts, k);
    }
  }
}
