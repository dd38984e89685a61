/**
  Any number of request threads on one lock file, interleaved at the grain of
  taking the guard, reading the file, testing the clock, removing the file and
  replacing it.  A thread may also die anywhere; the kernel then drops its guard.

  The log is the witness of linearizability.  An operation enters it when it
  takes effect, and every answer is shown to be the one that the atomic server
  gives at that place in the log.
*/
module LockThreads {
  import opened Options
  import opened LockState
  import opened LockRuns

  /** Where a thread is in its request; `since` is the length of the log when the request came in. */
  datatype Thread =
    | Idle
    | Rejected                                                   // turned away, without touching the file
    | Waiting(op: Op, since: nat)                                // for the guard
    | Entered(op: Op, since: nat)                                // holds the guard
    | HasRaw(op: Op, since: nat, raw: Option<Lock>)              // has read the file
    | Reaping(op: Op, since: nat, readAt: int)                   // found the lease over
    | Deciding(op: Op, since: nat, live: Option<Lock>, readAt: int)
    | Replacing(op: Op, since: nat, lock: Lock, reply: Reply, readAt: int, writeAt: int)
    | Removing(op: Op, since: nat, reply: Reply, readAt: int)
    | Leaving(op: Op, since: nat, reply: Reply, place: nat)      // still holds the guard
    | Answered(op: Op, since: nat, reply: Reply, place: nat)

  datatype State = State(
    file: Option<Lock>, guard: Option<nat>, threads: seq<Thread>, clock: int, log: seq<Event>)

  datatype Step =
    | Tick(now: int)
    | Arrive(i: nat, op: Op)
    | Enter(i: nat)
    | ReadFile(i: nat)
    | Test(i: nat)
    | Reap(i: nat)
    | Decide(i: nat)
    | Replace(i: nat)
    | Remove(i: nat)
    | Leave(i: nat)
    | Die(i: nat)

  predicate Inside(thread: Thread) {
    !thread.Idle? && !thread.Rejected? && !thread.Waiting? && !thread.Answered?
  }

  function Start(file: Option<Lock>, n: nat, clock: int): State {
    State(file, None, seq(n, _ => Idle), clock, [])
  }

  predicate Enabled(s: State, step: Step) {
    if step.Tick? then
      s.clock <= step.now
    else
      && step.i < |s.threads|
      && var t := s.threads[step.i];
         match step
         case Arrive(_, _) => t.Idle? || t.Rejected? || t.Answered?
         case Enter(_) => t.Waiting? && s.guard.None?
         case ReadFile(_) => t.Entered?
         case Test(_) => t.HasRaw?
         case Reap(_) => t.Reaping?
         case Decide(_) => t.Deciding?
         case Replace(_) => t.Replacing?
         case Remove(_) => t.Removing?
         case Leave(_) => t.Leaving?
         case Die(_) => true
  }

  /** What the code inside the guard does once the live record is known. */
  function Decided(t: Thread, clock: int): Thread
    requires t.Deciding?
  {
    var outcome := ApplyLive(t.op, t.live, clock);
    match t.op
    case Release(_, _) =>
      if outcome.reply.Unlocked? then Removing(t.op, t.since, outcome.reply, t.readAt) else t
    case _ =>
      if outcome.reply.Granted? || outcome.reply.Renewed?
      then Replacing(t.op, t.since, outcome.reply.lock, outcome.reply, t.readAt, clock)
      else t
  }

  /** The effect of an operation: its place in the log is the next one. */
  function Effect(s: State, i: nat, file: Option<Lock>, event: Event, reply: Reply): State
    requires i < |s.threads| && Inside(s.threads[i])
  {
    s.(file := file,
       threads := s.threads[i := Leaving(event.op, s.threads[i].since, reply, |s.log|)],
       log := s.log + [event])
  }

  /** A step that is not enabled changes nothing. */
  function Next(s: State, step: Step): State {
    if !Enabled(s, step) then s
    else
      match step
      case Tick(now) => s.(clock := now)
      case Arrive(i, op) =>
        s.(threads := s.threads[i := if Malformed(op) then Rejected else Waiting(op, |s.log|)])
      case Enter(i) =>
        s.(guard := Some(i), threads := s.threads[i := Entered(s.threads[i].op, s.threads[i].since)])
      case ReadFile(i) =>
        s.(threads := s.threads[i := HasRaw(s.threads[i].op, s.threads[i].since, s.file)])
      case Test(i) =>
        var t := s.threads[i];
        s.(threads := s.threads[i :=
          if t.raw.Some? && Expired(t.raw.value, s.clock) then Reaping(t.op, t.since, s.clock)
          else Deciding(t.op, t.since, t.raw, s.clock)])
      case Reap(i) =>
        var t := s.threads[i];
        s.(file := None, threads := s.threads[i := Deciding(t.op, t.since, None, t.readAt)])
      case Decide(i) =>
        var t := s.threads[i];
        var next := Decided(t, s.clock);
        if next != t then s.(threads := s.threads[i := next])
        else Effect(s, i, s.file, Event(t.op, t.readAt, t.readAt), ApplyLive(t.op, t.live, t.readAt).reply)
      case Replace(i) =>
        var t := s.threads[i];
        Effect(s, i, Some(t.lock), Event(t.op, t.readAt, t.writeAt), t.reply)
      case Remove(i) =>
        var t := s.threads[i];
        Effect(s, i, None, Event(t.op, t.readAt, t.readAt), t.reply)
      case Leave(i) =>
        var t := s.threads[i];
        s.(guard := None, threads := s.threads[i := Answered(t.op, t.since, t.reply, t.place)])
      case Die(i) =>
        s.(guard := if s.guard == Some(i) then None else s.guard, threads := s.threads[i := Idle])
  }

  function Exec(s: State, steps: seq<Step>): State {
    if steps == [] then s else Next(Exec(s, steps[..|steps| - 1]), steps[|steps| - 1])
  }

  // -------------------------------------------------------------------------
  // The invariant
  // -------------------------------------------------------------------------

  /** The file holds the abstract record, or nothing where that record has expired. */
  predicate Same(file: Option<Lock>, record: Option<Lock>, now: int) {
    file == record || (file.None? && record.Some? && Expired(record.value, now))
  }

  ghost predicate LogTimed(log: seq<Event>, now: int) {
    && (forall i :: 0 <= i < |log| ==> log[i].readAt <= log[i].writeAt <= now)
    && (forall i, j :: 0 <= i < j < |log| ==> log[i].writeAt <= log[j].readAt)
  }

  /** At most one thread is inside, and it is the one that holds the guard. */
  ghost predicate Exclusive(s: State) {
    forall i :: 0 <= i < |s.threads| ==> (Inside(s.threads[i]) <==> s.guard == Some(i))
  }

  /** How the file relates to the record that the log yields. */
  ghost predicate FileFits(initial: Option<Lock>, s: State) {
    var record := RecordAfter(initial, s.log);
    if s.guard.None? then Same(s.file, record, s.clock)
    else
      && s.guard.value < |s.threads|
      && var t := s.threads[s.guard.value];
         match t
         case Entered(op, _) => !Malformed(op) && Same(s.file, record, s.clock)
         case HasRaw(op, _, raw) => !Malformed(op) && raw == s.file && Same(s.file, record, s.clock)
         case Reaping(op, _, readAt) =>
           !Malformed(op) && s.file.Some? && s.file == record && Expired(s.file.value, readAt) && readAt <= s.clock
         case Deciding(op, _, live, readAt) =>
           !Malformed(op) && live == s.file == Live(record, readAt) && readAt <= s.clock
         case Replacing(op, _, lock, reply, readAt, writeAt) =>
           && s.file == Live(record, readAt) && readAt <= writeAt <= s.clock
           && Outcome(reply, Some(lock)) == Apply(op, record, readAt, writeAt)
         case Removing(op, _, reply, readAt) =>
           && s.file == Live(record, readAt) && readAt <= s.clock
           && Outcome(reply, None) == Apply(op, record, readAt, readAt)
         case Leaving(_, _, _, _) => Same(s.file, record, s.clock)
         case _ => false
  }

  /** The reads of the operation in progress come after everything in the log. */
  ghost predicate ReadAfterLog(t: Thread, log: seq<Event>) {
    t.Reaping? || t.Deciding? || t.Replacing? || t.Removing? ==> LogTimed(log, t.readAt)
  }

  /** An answer is the atomic server's, at a place in the log inside the request's own span. */
  ghost predicate Explained(initial: Option<Lock>, log: seq<Event>, t: Thread) {
    && (!t.Idle? && !t.Rejected? ==> t.since <= |log| && !Malformed(t.op))
    && (t.Leaving? || t.Answered? ==>
          && t.since <= t.place < |log|
          && log[t.place].op == t.op
          && t.reply == ReplyAt(initial, log, t.place))
  }

  /** No two requests share a place in the log. */
  ghost predicate OwnPlaces(s: State) {
    forall i, j :: 0 <= i < j < |s.threads|
      && (s.threads[i].Leaving? || s.threads[i].Answered?)
      && (s.threads[j].Leaving? || s.threads[j].Answered?)
      ==> s.threads[i].place != s.threads[j].place
  }

  ghost predicate Inv(initial: Option<Lock>, s: State) {
    && Exclusive(s)
    && LogTimed(s.log, s.clock)
    && FileFits(initial, s)
    && OwnPlaces(s)
    && (forall i :: 0 <= i < |s.threads| ==> ReadAfterLog(s.threads[i], s.log))
    && (forall i :: 0 <= i < |s.threads| ==> Explained(initial, s.log, s.threads[i]))
  }

  lemma SameLater(file: Option<Lock>, record: Option<Lock>, now: int, later: int)
    requires Same(file, record, now) && now <= later
    ensures Same(file, record, later)
    ensures Live(file, later) == Live(record, later)
  {
    if record.Some? {
      ExpiryIsFinal(record.value, now, later);
    }
  }

  /** Appending to the log changes no earlier answer. */
  lemma LogGrows(initial: Option<Lock>, log: seq<Event>, event: Event)
    ensures RecordAfter(initial, log + [event]) == Perform(event, RecordAfter(initial, log)).record
    ensures ReplyAt(initial, log + [event], |log|) == Perform(event, RecordAfter(initial, log)).reply
    ensures forall i: nat :: i < |log| ==> ReplyAt(initial, log + [event], i) == ReplyAt(initial, log, i)
  {
    assert (log + [event])[..|log|] == log;
    forall i: nat | i < |log|
      ensures ReplyAt(initial, log + [event], i) == ReplyAt(initial, log, i)
    {
      assert (log + [event])[..i] == log[..i];
    }
  }

  lemma EffectKeepsInv(initial: Option<Lock>, s: State, i: nat, file: Option<Lock>, event: Event, reply: Reply)
    requires Inv(initial, s) && i < |s.threads| && s.guard == Some(i)
    requires s.threads[i].Deciding? || s.threads[i].Replacing? || s.threads[i].Removing?
    requires event.op == s.threads[i].op && event.readAt == s.threads[i].readAt
    requires event.readAt <= event.writeAt <= s.clock
    requires Outcome(reply, file) == Perform(event, RecordAfter(initial, s.log))
    ensures Inv(initial, Effect(s, i, file, event, reply))
  {
    LogGrows(initial, s.log, event);
    var s' := Effect(s, i, file, event, reply);
    forall j | 0 <= j < |s'.threads| ensures Explained(initial, s'.log, s'.threads[j]) {
      assert Explained(initial, s.log, s.threads[j]);
    }
    assert ReadAfterLog(s.threads[i], s.log);
    forall j | 0 <= j < |s'.threads| ensures ReadAfterLog(s'.threads[j], s'.log) {
      assert j != i ==> !Inside(s.threads[j]);
    }
    assert OwnPlaces(s') by {
      assert forall j :: 0 <= j < |s.threads| ==> Explained(initial, s.log, s.threads[j]);
    }
  }

  /** Every operation that writes is one that `Decided` sends to a write. */
  lemma DecidedIsApply(t: Thread, record: Option<Lock>, file: Option<Lock>, clock: int)
    requires t.Deciding? && !Malformed(t.op) && t.live == file == Live(record, t.readAt)
    ensures var next := Decided(t, clock);
            && (next == t ==> Outcome(ApplyLive(t.op, t.live, t.readAt).reply, file) == Apply(t.op, record, t.readAt, t.readAt))
            && (next.Replacing? ==> Outcome(next.reply, Some(next.lock)) == Apply(t.op, record, t.readAt, clock))
            && (next.Removing? ==> Outcome(next.reply, None) == Apply(t.op, record, t.readAt, t.readAt))
            && (next == t || next.Replacing? || next.Removing?)
  {
  }

  lemma TickKeepsInv(initial: Option<Lock>, s: State, now: int)
    requires Inv(initial, s) && s.clock <= now
    ensures Inv(initial, Next(s, Step.Tick(now)))
  {
    var record := RecordAfter(initial, s.log);
    if s.guard.None? || s.threads[s.guard.value].Entered? || s.threads[s.guard.value].HasRaw?
       || s.threads[s.guard.value].Leaving? {
      SameLater(s.file, record, s.clock, now);
    }
  }

  lemma ArriveKeepsInv(initial: Option<Lock>, s: State, i: nat, op: Op)
    requires Inv(initial, s) && Enabled(s, Arrive(i, op))
    ensures Inv(initial, Next(s, Arrive(i, op)))
  {
    assert Explained(initial, s.log, s.threads[i]);
  }

  lemma EnterKeepsInv(initial: Option<Lock>, s: State, i: nat)
    requires Inv(initial, s) && Enabled(s, Enter(i))
    ensures Inv(initial, Next(s, Enter(i)))
  {
    assert Explained(initial, s.log, s.threads[i]);
  }

  lemma ReadKeepsInv(initial: Option<Lock>, s: State, i: nat)
    requires Inv(initial, s) && Enabled(s, ReadFile(i))
    ensures Inv(initial, Next(s, ReadFile(i)))
  {
    assert Explained(initial, s.log, s.threads[i]);
  }

  lemma TestKeepsInv(initial: Option<Lock>, s: State, i: nat)
    requires Inv(initial, s) && Enabled(s, Test(i))
    ensures Inv(initial, Next(s, Test(i)))
  {
    assert Explained(initial, s.log, s.threads[i]);
    SameLater(s.file, RecordAfter(initial, s.log), s.clock, s.clock);
  }

  lemma ReapKeepsInv(initial: Option<Lock>, s: State, i: nat)
    requires Inv(initial, s) && Enabled(s, Reap(i))
    ensures Inv(initial, Next(s, Reap(i)))
  {
    assert Explained(initial, s.log, s.threads[i]);
    assert ReadAfterLog(s.threads[i], s.log);
  }

  lemma DecideKeepsInv(initial: Option<Lock>, s: State, i: nat)
    requires Inv(initial, s) && Enabled(s, Decide(i))
    ensures Inv(initial, Next(s, Decide(i)))
  {
    var t := s.threads[i];
    assert Explained(initial, s.log, t) && ReadAfterLog(t, s.log);
    DecidedIsApply(t, RecordAfter(initial, s.log), s.file, s.clock);
    if Decided(t, s.clock) == t {
      EffectKeepsInv(initial, s, i, s.file, Event(t.op, t.readAt, t.readAt), ApplyLive(t.op, t.live, t.readAt).reply);
    }
  }

  lemma LeaveKeepsInv(initial: Option<Lock>, s: State, i: nat)
    requires Inv(initial, s) && Enabled(s, Leave(i))
    ensures Inv(initial, Next(s, Leave(i)))
  {
    assert Explained(initial, s.log, s.threads[i]);
  }

  lemma StepKeepsInv(initial: Option<Lock>, s: State, step: Step)
    requires Inv(initial, s)
    ensures Inv(initial, Next(s, step))
  {
    if Enabled(s, step) {
      match step {
        case Tick(now) => TickKeepsInv(initial, s, now);
        case Test(i) => TestKeepsInv(initial, s, i);
        case Reap(i) => ReapKeepsInv(initial, s, i);
        case Decide(i) => DecideKeepsInv(initial, s, i);
        case Replace(i) =>
          var t := s.threads[i];
          EffectKeepsInv(initial, s, i, Some(t.lock), Event(t.op, t.readAt, t.writeAt), t.reply);
        case Remove(i) =>
          var t := s.threads[i];
          EffectKeepsInv(initial, s, i, None, Event(t.op, t.readAt, t.readAt), t.reply);
        case Leave(i) => LeaveKeepsInv(initial, s, i);
        case Die(i) => DeathKeepsInv(initial, s, i);
        case Arrive(i, op) => ArriveKeepsInv(initial, s, i, op);
        case Enter(i) => EnterKeepsInv(initial, s, i);
        case ReadFile(i) => ReadKeepsInv(initial, s, i);
      }
    }
  }

  /** What a thread that dies inside leaves behind is what a reader would have found. */
  lemma DeathLeavesSame(initial: Option<Lock>, s: State, i: nat)
    requires Inv(initial, s) && i < |s.threads| && s.guard == Some(i)
    ensures Same(s.file, RecordAfter(initial, s.log), s.clock)
  {
    var record := RecordAfter(initial, s.log);
    var t := s.threads[i];
    if t.Deciding? || t.Replacing? || t.Removing? {
      SameLater(s.file, record, t.readAt, s.clock);
    }
  }

  lemma DeathKeepsInv(initial: Option<Lock>, s: State, i: nat)
    requires Inv(initial, s) && i < |s.threads|
    ensures Inv(initial, Next(s, Die(i)))
  {
    if s.guard == Some(i) {
      DeathLeavesSame(initial, s, i);
    }
    hide Same, RecordAfter, ReplyAt, Apply, Live;
    assert Explained(initial, s.log, s.threads[i]);
  }

  lemma {:induction false} ExecKeepsInv(initial: Option<Lock>, n: nat, clock: int, steps: seq<Step>)
    ensures Inv(initial, Exec(Start(initial, n, clock), steps))
  {
    if steps != [] {
      ExecKeepsInv(initial, n, clock, steps[..|steps| - 1]);
      StepKeepsInv(initial, Exec(Start(initial, n, clock), steps[..|steps| - 1]), steps[|steps| - 1]);
    }
  }

  // -------------------------------------------------------------------------
  // Main results
  // -------------------------------------------------------------------------

  /**
    Linearizability.  Whatever the interleaving, the log is a timed run of the
    atomic server, and each answered request has a place of its own in it, no
    earlier than the request came in, with exactly that server's reply.
  */
  lemma Linearizable(initial: Option<Lock>, n: nat, clock: int, steps: seq<Step>)
    ensures var s := Exec(Start(initial, n, clock), steps);
            && LogTimed(s.log, s.clock)
            && OwnPlaces(s)
            && forall i :: 0 <= i < |s.threads| && s.threads[i].Answered? ==>
                 var t := s.threads[i];
                 && t.since <= t.place < |s.log|
                 && s.log[t.place].op == t.op
                 && t.reply == ReplyAt(initial, s.log, t.place)
  {
    ExecKeepsInv(initial, n, clock, steps);
    var s := Exec(Start(initial, n, clock), steps);
    forall i | 0 <= i < |s.threads| && s.threads[i].Answered?
      ensures Explained(initial, s.log, s.threads[i])
    {
    }
  }

  /** The step is not one that starts or ends a request of thread `j`. */
  predicate Leaves(step: Step, j: nat) {
    (step.Arrive? || step.Die?) ==> step.i != j
  }

  lemma StepKeepsSince(s: State, step: Step, j: nat)
    requires j < |s.threads| && Leaves(step, j) && !s.threads[j].Idle? && !s.threads[j].Rejected?
    ensures j < |Next(s, step).threads|
    ensures var t := Next(s, step).threads[j];
            !t.Idle? && !t.Rejected? && t.op == s.threads[j].op && t.since == s.threads[j].since
  {
    hide Expired, ApplyLive;
  }

  lemma {:induction false} ThreadsAndLog(initial: State, steps: seq<Step>, k: nat)
    requires k <= |steps|
    ensures |Exec(initial, steps).threads| == |initial.threads|
    ensures |Exec(initial, steps[..k]).log| <= |Exec(initial, steps).log|
  {
    if steps != [] {
      var before := steps[..|steps| - 1];
      ThreadsAndLog(initial, before, if k < |steps| then k else |before|);
      if k == |steps| {
        assert steps[..k] == steps;
      } else {
        assert before[..k] == steps[..k];
      }
      hide Expired, ApplyLive;
    }
  }

  /** A request keeps the length that the log had when it came in. */
  lemma {:induction false} SinceIsArrival(initial: State, steps: seq<Step>, m: nat, j: nat, op: Op)
    requires m < |steps| && steps[m] == Arrive(j, op) && !Malformed(op) && Enabled(Exec(initial, steps[..m]), Arrive(j, op))
    requires forall l :: m < l < |steps| ==> Leaves(steps[l], j)
    ensures var s := Exec(initial, steps);
            && j < |s.threads| && !s.threads[j].Idle? && !s.threads[j].Rejected?
            && s.threads[j].op == op && s.threads[j].since == |Exec(initial, steps[..m]).log|
  {
    var before := steps[..|steps| - 1];
    if m == |steps| - 1 {
      assert before == steps[..m];
    } else {
      assert before[..m] == steps[..m];
      SinceIsArrival(initial, before, m, j, op);
      StepKeepsSince(Exec(initial, before), steps[|steps| - 1], j);
      hide Enabled, Leaves;
    }
  }

  /** A request that comes in after another was answered is given the later place, whatever happens in between. */
  lemma RealTimeOrder(initial: Option<Lock>, n: nat, clock: int, steps: seq<Step>, k: nat, i: nat, m: nat, j: nat, op: Op)
    requires k <= m < |steps| && steps[m] == Arrive(j, op)
    requires var s := Exec(Start(initial, n, clock), steps[..k]); i < |s.threads| && s.threads[i].Answered?
    requires Enabled(Exec(Start(initial, n, clock), steps[..m]), Arrive(j, op))
    requires forall l :: m < l < |steps| ==> Leaves(steps[l], j)
    requires var t := Exec(Start(initial, n, clock), steps); j < |t.threads| && t.threads[j].Answered? && !Malformed(op)
    ensures var earlier := Exec(Start(initial, n, clock), steps[..k]).threads[i];
            var later := Exec(Start(initial, n, clock), steps).threads[j];
            later.op == op && earlier.place < later.place
  {
    var start := Start(initial, n, clock);
    Linearizable(initial, n, clock, steps[..k]);
    Linearizable(initial, n, clock, steps);
    SinceIsArrival(start, steps, m, j, op);
    ThreadsAndLog(start, steps[..m], k);
    assert steps[..m][..k] == steps[..k];
  }

  lemma TwoAcquires(record: Option<Lock>, first: Event, second: Event)
    requires first.op.Acquire? && second.op.Acquire? && first.op.user != second.op.user
    requires !Malformed(first.op) && !Malformed(second.op) && Live(record, first.readAt) == None
    ensures var one := Perform(first, record);
            var two := Perform(second, one.record);
            && one.reply.Granted? && one.reply.lock.user == first.op.user
            && (if Expired(one.reply.lock, second.readAt) then two.reply.Granted? else two.reply == Conflict(one.reply.lock))
  {
  }

  /**
    Two acquires by different users race for a free box, with nothing taking
    effect between them: the one that takes effect first is granted, and the
    other is refused, unless that lease ran out before it looked.
  */
  lemma OneWinner(initial: Option<Lock>, n: nat, clock: int, steps: seq<Step>, i: nat, j: nat)
    requires var s := Exec(Start(initial, n, clock), steps);
      && i < |s.threads| && j < |s.threads| && i != j
      && s.threads[i].Answered? && s.threads[j].Answered?
      && s.threads[i].op.Acquire? && s.threads[j].op.Acquire?
      && s.threads[i].op.user != s.threads[j].op.user
    requires var s := Exec(Start(initial, n, clock), steps);
      var p := s.threads[i].place;
      && s.threads[j].place == p + 1 < |s.log|
      && Live(RecordAfter(initial, s.log[..p]), s.log[p].readAt) == None
    ensures var s := Exec(Start(initial, n, clock), steps);
            var first := s.threads[i].reply;
            && first.Granted? && first.lock.user == s.threads[i].op.user
            && (if Expired(first.lock, s.log[s.threads[j].place].readAt) then s.threads[j].reply.Granted?
                else s.threads[j].reply == Conflict(first.lock))
  {
    var s := Exec(Start(initial, n, clock), steps);
    var t, u := s.threads[i], s.threads[j];
    var p := t.place;
    hide *;
    AnswerIsExplained(initial, n, clock, steps, i);
    AnswerIsExplained(initial, n, clock, steps, j);
    LogUnfolds(initial, s.log, p);
    LogUnfolds(initial, s.log, p + 1);
    TwoAcquires(RecordAfter(initial, s.log[..p]), s.log[p], s.log[p + 1]);
  }

  lemma AnswerIsExplained(initial: Option<Lock>, n: nat, clock: int, steps: seq<Step>, i: nat)
    requires i < |Exec(Start(initial, n, clock), steps).threads|
    requires Exec(Start(initial, n, clock), steps).threads[i].Answered?
    ensures var s := Exec(Start(initial, n, clock), steps);
            var t := s.threads[i];
            && t.place < |s.log| && t.op == s.log[t.place].op && !Malformed(t.op)
            && t.reply == ReplyAt(initial, s.log, t.place)
  {
    hide Exec, ReplyAt, Malformed, Exclusive, LogTimed, FileFits, OwnPlaces, ReadAfterLog;
    ExecKeepsInv(initial, n, clock, steps);
    var s := Exec(Start(initial, n, clock), steps);
    assert Explained(initial, s.log, s.threads[i]);
  }

  lemma LogUnfolds(initial: Option<Lock>, log: seq<Event>, p: nat)
    requires p < |log|
    ensures ReplyAt(initial, log, p) == Perform(log[p], RecordAfter(initial, log[..p])).reply
    ensures RecordAfter(initial, log[..p + 1]) == Perform(log[p], RecordAfter(initial, log[..p])).record
  {
    assert log[..p + 1][..p] == log[..p];
    hide Perform;
  }
}
