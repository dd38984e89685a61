/**
  The request threads of the lock get somewhere: no request is stuck behind
  another for good, and one that is let run is answered as the atomic server
  would answer it.
*/
module LockProgress {
  import opened Options
  import opened LockState
  import opened LockRuns
  import opened LockThreads

  /** How many of its own steps a request has left, at most. */
  function Left(t: Thread): nat {
    match t
    case Waiting(_, _) => 7
    case Entered(_, _) => 6
    case HasRaw(_, _, _) => 5
    case Reaping(_, _, _) => 4
    case Deciding(_, _, _, _) => 3
    case Replacing(_, _, _, _, _, _) => 2
    case Removing(_, _, _, _) => 2
    case Leaving(_, _, _, _) => 1
    case _ => 0
  }

  predicate Unfinished(t: Thread) {
    t.Waiting? || Inside(t)
  }

  /** The next step of a request. */
  function NextOf(s: State, i: nat): Step
    requires i < |s.threads| && Unfinished(s.threads[i])
  {
    match s.threads[i]
    case Waiting(_, _) => Enter(i)
    case Entered(_, _) => ReadFile(i)
    case HasRaw(_, _, _) => Test(i)
    case Reaping(_, _, _) => Reap(i)
    case Deciding(_, _, _, _) => Decide(i)
    case Replacing(_, _, _, _, _, _) => Replace(i)
    case Removing(_, _, _, _) => Remove(i)
    case Leaving(_, _, _, _) => Leave(i)
  }

  /** A request can take its next step, unless it waits while another is inside; and that brings it nearer to its answer. */
  lemma GoesOn(s: State, i: nat)
    requires i < |s.threads| && Unfinished(s.threads[i])
    ensures var next := Next(s, NextOf(s, i));
            if s.threads[i].Waiting? && s.guard.Some? then next == s
            else
              && i < |next.threads|
              && Left(next.threads[i]) < Left(s.threads[i])
              && (Unfinished(next.threads[i]) || next.threads[i].Answered?)
  {
  }

  /** Whoever waits waits for a thread that can go on. */
  lemma NoDeadlock(initial: Option<Lock>, s: State, i: nat) returns (k: nat)
    requires Inv(initial, s) && i < |s.threads| && Unfinished(s.threads[i])
    ensures k < |s.threads| && Unfinished(s.threads[k]) && Next(s, NextOf(s, k)) != s
    ensures !(s.threads[k].Waiting? && s.guard.Some?)
  {
    k := if s.threads[i].Waiting? && s.guard.Some? then s.guard.value else i;
    hide LogTimed, OwnPlaces;
    assert Inside(s.threads[k]) || !(s.threads[i].Waiting? && s.guard.Some?);
    GoesOn(s, k);
  }

  /** The thread takes its steps one after the other, with nothing in between. */
  function Alone(s: State, i: nat, n: nat): State
    decreases n
  {
    if n == 0 || i >= |s.threads| || !Unfinished(s.threads[i]) then s else Alone(Next(s, NextOf(s, i)), i, n - 1)
  }

  /** The last steps of a request that changes nothing, or whose write is prepared. */
  lemma WritesAndLeaves(s: State, i: nat, n: nat)
    requires i < |s.threads| && n >= 2 && (s.threads[i].Replacing? || s.threads[i].Removing?)
    ensures var t, after := s.threads[i], Alone(s, i, n);
            && after.threads == s.threads[i := Answered(t.op, t.since, t.reply, |s.log|)] && after.guard == None
            && after.file == (if t.Replacing? then Some(t.lock) else None)
  {
    var s1 := Next(s, NextOf(s, i));
    assert s1.threads[i].Leaving?;
    var s2 := Next(s1, NextOf(s1, i));
    assert Alone(s, i, n) == Alone(s1, i, n - 1) == Alone(s2, i, n - 2) == s2;
  }

  lemma DecidesAlone(s: State, i: nat, n: nat)
    requires i < |s.threads| && n >= 3 && s.threads[i].Deciding? && s.threads[i].live == s.file && s.threads[i].readAt == s.clock
    requires !Malformed(s.threads[i].op)
    ensures var t, after, outcome := s.threads[i], Alone(s, i, n), ApplyLive(s.threads[i].op, s.file, s.clock);
            && after.threads == s.threads[i := Answered(t.op, t.since, outcome.reply, |s.log|)] && after.guard == None
            && after.file == outcome.record
  {
    var t := s.threads[i];
    var s1 := Next(s, Decide(i));
    assert Alone(s, i, n) == Alone(s1, i, n - 1);
    if s1.threads[i].Leaving? {
      var s2 := Next(s1, Leave(i));
      assert Alone(s1, i, n - 1) == Alone(s2, i, n - 2) == s2;
    } else {
      WritesAndLeaves(s1, i, n - 1);
    }
  }

  /**
    When the guard is free, time may pass to any later moment; and then a request
    that waits for the guard, and is let run, is answered within seven steps, just
    as the atomic server answers at that moment, and leaves the file as it does.
  */
  lemma AnsweredAlone(s: State, i: nat, now: int)
    requires i < |s.threads| && s.threads[i].Waiting? && s.guard.None? && s.clock <= now && !Malformed(s.threads[i].op)
    ensures var t := s.threads[i];
            var after, outcome := Alone(Next(s, Step.Tick(now)), i, 7), Apply(t.op, s.file, now, now);
            && after.threads == s.threads[i := Answered(t.op, t.since, outcome.reply, |s.log|)]
            && after.file == outcome.record && after.guard == None
  {
    hide ApplyLive;
    var t := s.threads[i];
    var s0 := Next(s, Step.Tick(now));
    var s1 := Next(s0, Enter(i));
    var s2 := Next(s1, ReadFile(i));
    var s3 := Next(s2, Test(i));
    assert s2.threads[i] == HasRaw(t.op, t.since, s.file);
    assert Alone(s0, i, 7) == Alone(s1, i, 6) == Alone(s2, i, 5) == Alone(s3, i, 4);
    if s3.threads[i].Reaping? {
      var s4 := Next(s3, Reap(i));
      assert Alone(s3, i, 4) == Alone(s4, i, 3);
      assert s4.threads == s.threads[i := Deciding(t.op, t.since, None, now)];
      DecidesAlone(s4, i, 3);
    } else {
      assert s3.threads == s.threads[i := Deciding(t.op, t.since, s.file, now)];
      DecidesAlone(s3, i, 4);
    }
  }

  /** A thread that is not at work takes any request; one that is turned away never comes near the file. */
  lemma TakesRequests(s: State, i: nat, op: Op)
    requires i < |s.threads| && !Unfinished(s.threads[i])
    ensures Next(s, Arrive(i, op))
         == s.(threads := s.threads[i := if Malformed(op) then Rejected else Waiting(op, |s.log|)])
  {
  }

  /** A thread may die anywhere, and takes nothing with it but the guard that it held. */
  lemma DeathFreesTheGuard(initial: Option<Lock>, s: State, i: nat)
    requires Inv(initial, s) && i < |s.threads|
    ensures Next(s, Die(i))
         == s.(threads := s.threads[i := Idle], guard := if Inside(s.threads[i]) then None else s.guard)
  {
    hide LogTimed, OwnPlaces, FileFits;
  }
}
