/**
  What the requests of the device service get: exclusion for each device as they
  state it, the channel as they name it, a fresh driver when a device was lost,
  and an answer that tells what became of them.
*/
module DeviceRequests {
  import opened Options
  import opened DeviceLocks

  // -------------------------------------------------------------------------
  // The device that a request states
  // -------------------------------------------------------------------------

  /** A device id comes first, then an address; a batch read without an id is for any LabJack. */
  predicate States(request: Request, device: string) {
    match request
    case BatchRead(id) => if id == "" then device == "labjack:ANY" else device == id
    case Invoke(_, info) =>
      && info.Some? && device != ""
      && (info.value.deviceId == device || (info.value.deviceId == "" && info.value.address == device))
  }

  predicate StatesNone(request: Request) {
    request.Invoke? && (request.info.None? || request.info.value.deviceId == request.info.value.address == "")
  }

  /** Requests for one role at one address, or alike in all they say, share a driver. */
  predicate SameDriver(p: Request, q: Request) {
    && p.Invoke? && q.Invoke? && p.device == q.device
    && (p.info == q.info
        || (p.info.Some? && q.info.Some? && p.info.value.address == q.info.value.address && p.info.value.address != ""))
  }

  /** Requests that must not work at one time. */
  ghost predicate Exclude(p: Request, q: Request) {
    || (exists device :: States(p, device) && States(q, device))
    || (StatesNone(p) && StatesNone(q) && SameDriver(p, q))
  }

  lemma KeyIff(p: Request, q: Request)
    requires p.Invoke? && q.Invoke?
    ensures KeyOf(p) == KeyOf(q) <==> SameDriver(p, q)
  {
  }

  lemma StatedIsLocked(request: Request, device: string)
    ensures States(request, device) ==> LockOf(request) == OnAddress(device)
    ensures LockOf(request) == OnAddress(device) ==> States(request, device)
    ensures StatesNone(request) <==> LockOf(request).OnKey?
    ensures StatesNone(request) ==> LockOf(request) == OnKey(KeyOf(request))
  {
    hide KeyOf;
  }

  lemma LockIff(p: Request, q: Request)
    ensures LockOf(p) == LockOf(q) <==> Exclude(p, q)
  {
    hide LockOf, KeyOf, States, StatesNone, SameDriver;
    forall device | States(p, device) && States(q, device)
      ensures LockOf(p) == LockOf(q)
    {
      StatedIsLocked(p, device);
      StatedIsLocked(q, device);
    }
    StatedIsLocked(p, "");
    StatedIsLocked(q, "");
    if p.Invoke? && q.Invoke? {
      KeyIff(p, q);
    }
    if LockOf(p).OnAddress? {
      StatedIsLocked(p, LockOf(p).address);
      StatedIsLocked(q, LockOf(p).address);
    } else {
      StatesNoneIsInvoke(p);
      StatesNoneIsInvoke(q);
    }
  }

  lemma StatesNoneIsInvoke(p: Request)
    ensures StatesNone(p) ==> p.Invoke?
  {
  }

  /**
    Whatever requests come, and whichever of their calls hang: two operations
    that have their locks at one time, going on or just over, are for different
    devices, batch reads and abandoned calls included.
  */
  lemma OneAtATimeOnDevice(n: nat, steps: seq<Step>, a: Owner, b: Owner)
    requires var s := Exec(Start(n), steps);
      Holding(s, a) && Holding(s, b) && Exclude(RequestAt(s, a), RequestAt(s, b))
    ensures a == b
  {
    var s := Exec(Start(n), steps);
    LockIff(RequestAt(s, a), RequestAt(s, b));
    ExecKeepsLocks(n, steps);
  }

  predicate Queues(s: State, i: nat) {
    i < |s.threads| && (s.threads[i].Queuing? || s.threads[i].BatchQueuing?)
  }

  function QueuedRequest(s: State, i: nat): Request
    requires Queues(s, i)
  {
    if s.threads[i].Queuing? then s.threads[i].work.request else s.threads[i].request
  }

  /**
    A request waits only for another on its own device: it can go on exactly if
    there is none, and is told busy only if there is one.
  */
  lemma WaitsOnlyForItsDevice(n: nat, steps: seq<Step>, i: nat)
    requires Queues(Exec(Start(n), steps), i)
    ensures var s := Exec(Start(n), steps);
            Enabled(s, Go(i, Acquire)) <==>
              forall owner :: Holding(s, owner) ==> !Exclude(RequestAt(s, owner), QueuedRequest(s, i))
    ensures var s := Exec(Start(n), steps);
            Enabled(s, Go(i, GiveUp)) <==> !Enabled(s, Go(i, Acquire))
  {
    var s := Exec(Start(n), steps);
    var request := QueuedRequest(s, i);
    ExecKeepsLocks(n, steps);
    hide LockOf, Exclude, Exec;
    forall owner | Holding(s, owner) {
      LockIff(RequestAt(s, owner), request);
    }
    if LockOf(request) in s.owners {
      assert Holding(s, s.owners[LockOf(request)]);
    }
  }

  // -------------------------------------------------------------------------
  // The channel that a request names
  // -------------------------------------------------------------------------

  /** A channel, or else a pin: saved nets call it that. */
  predicate NamesChannel(request: Request, channel: string) {
    && request.Invoke? && request.info.Some?
    && (request.info.value.channel == Some(channel)
        || (request.info.value.channel == None && request.info.value.pin == Some(channel)))
  }

  lemma NamedIff(request: Request, channel: string)
    ensures Named(request) == Some(channel) <==> NamesChannel(request, channel)
  {
  }

  ghost predicate NamesSome(request: Request) {
    exists channel :: NamesChannel(request, channel)
  }

  lemma NamedSomeIff(request: Request)
    ensures Named(request).Some? <==> NamesSome(request)
  {
    hide Named, NamesChannel;
    forall channel {
      NamedIff(request, channel);
    }
    if Named(request).Some? {
      assert NamesChannel(request, Named(request).value);
    }
  }

  ghost predicate AllOnNamedChannel(s: State) {
    forall k, channel :: 0 <= k < |s.ran| && s.ran[k].driver.repointable && NamesChannel(s.ran[k].work.request, channel) ==>
      s.ran[k].driver.channel == Some(channel)
  }

  lemma OnNamedChannelIff(s: State)
    ensures AllOnChannel(s) <==> AllOnNamedChannel(s)
  {
    hide Named, NamesChannel;
    forall request, channel {
      NamedIff(request, channel);
    }
  }

  /** The families of requests for which nothing can go wrong. */
  ghost predicate Safe(family: iset<Request>, mayRaise: bool) {
    && (forall p <- family, q <- family :: SameDriver(p, q) && NamesSome(p) ==> Exclude(p, q))
    && (mayRaise ==> forall p <- family :: !NamesSome(p))
  }

  lemma SafeIff(family: iset<Request>, mayRaise: bool)
    ensures Safe(family, mayRaise) <==> Agree(family) && (mayRaise ==> NamesNone(family))
  {
    hide LockOf, KeyOf, Named, Exclude, NamesSome;
    forall p {
      NamedSomeIff(p);
    }
    forall p, q {
      LockIff(p, q);
    }
    forall p: Request, q: Request | p.Invoke? && q.Invoke? {
      KeyIff(p, q);
    }
    forall p | NamesSome(p) ensures p.Invoke? {
      assert NamesSome(p) ==> p.Invoke? by { NamesSomeIsInvoke(p); }
    }
  }

  lemma NamesSomeIsInvoke(p: Request)
    ensures NamesSome(p) ==> p.Invoke?
  {
  }

  /**
    Over all runs of a family of requests, every call is made with its driver on
    the channel that its request names, exactly if requests that share a driver
    exclude each other where a channel is named, and setting one does not fail.
  */
  lemma RunsOnNamedChannelIff(family: iset<Request>, mayRaise: bool)
    ensures Safe(family, mayRaise) <==>
              forall n: nat, steps :: AskedIn(steps, family, mayRaise) ==> AllOnNamedChannel(Exec(Start(n), steps))
  {
    SafeIff(family, mayRaise);
    AgreementIsNeeded(family, mayRaise);
    hide *;
    forall n: nat, steps {
      OnNamedChannelIff(Exec(Start(n), steps));
    }
  }

  /**
    A worker goes on with its call whether or not its request still waits: it
    sets the channel, calls the function on the driver as it then is, and is over.
  */
  lemma WorkersGoOn(s: State, owner: Owner, action: Action)
    requires Enabled(s, Act(owner, action))
    ensures var work, next := WorkAt(s, owner), Next(s, Act(owner, action));
            && HasWork(next, owner) && WorkAt(next, owner).driver == work.driver && WorkAt(next, owner).request == work.request
            && (action.Sync? ==>
                  && WorkAt(next, owner).stage.Synced? && next.ran == s.ran
                  && (WorkAt(next, owner).stage.raised ==> action.raises && NamesSome(work.request)))
            && (action.Call? ==>
                  && WorkAt(next, owner).stage == Running
                  && next.ran == s.ran + [Ran(work, s.drivers[work.driver])] && next.drivers == s.drivers)
            && (action.Return? ==> WorkAt(next, owner).stage == Over && next.ran == s.ran)
  {
    NamedSomeIff(WorkAt(s, owner).request);
    hide Named, NamesSome;
  }

  // -------------------------------------------------------------------------
  // A device that was lost
  // -------------------------------------------------------------------------

  predicate IsAt(request: Request, address: string) {
    request.Invoke? && request.info.Some? && request.info.value.address == address && address != ""
  }

  /** No driver made before the first `count` is handed out for this address. */
  ghost predicate Forgotten(s: State, address: string, count: nat) {
    && count <= |s.drivers|
    && forall device :: ByAddress(device, address) in s.cache ==> count <= s.cache[ByAddress(device, address)]
  }

  lemma StepKeepsForgotten(s: State, step: Step, address: string, count: nat)
    requires Forgotten(s, address, count)
    ensures Forgotten(Next(s, step), address, count)
  {
    hide LockOf, KeyOf, Named;
  }

  lemma {:induction false} ForgottenForGood(s: State, address: string, count: nat, steps: seq<Step>)
    requires Forgotten(s, address, count)
    ensures Forgotten(Exec(s, steps), address, count)
  {
    hide Next, Forgotten;
    if steps != [] {
      ForgottenForGood(s, address, count, steps[..|steps| - 1]);
      StepKeepsForgotten(Exec(s, steps[..|steps| - 1]), steps[|steps| - 1], address, count);
    }
  }

  /**
    After a call found that the device itself was gone, no request at its
    address is given a driver from before, whatever its role and whatever else
    happens: each finds a newer one, or makes it.
  */
  lemma LostDeviceIsReopened(s: State, i: nat, address: string, after: seq<Step>, j: nat)
    requires Enabled(s, Go(i, Evict)) && s.threads[i].enodev && IsAt(s.threads[i].request, address)
    requires var later := Exec(Next(s, Go(i, Evict)), after);
      Enabled(later, Go(j, Seek)) && IsAt(later.threads[j].request, address)
    ensures var later := Exec(Next(s, Go(i, Evict)), after);
            var t := Next(later, Go(j, Seek)).threads[j];
            t.Creating? || (t.Found? && t.work.driver >= |s.drivers|)
  {
    var evicted := Next(s, Go(i, Evict));
    assert Forgotten(evicted, address, |s.drivers|);
    ForgottenForGood(evicted, address, |s.drivers|, after);
    hide Exec;
    var later := Exec(evicted, after);
    assert KeyOf(later.threads[j].request) == ByAddress(later.threads[j].request.device, address);
  }

  ghost predicate Replaced(s: State, key: CacheKey, count: nat) {
    count <= |s.drivers| && (key in s.cache ==> count <= s.cache[key])
  }

  lemma StepKeepsReplaced(s: State, step: Step, key: CacheKey, count: nat)
    requires Replaced(s, key, count)
    ensures Replaced(Next(s, step), key, count)
  {
    hide LockOf, KeyOf, Named;
  }

  lemma {:induction false} ReplacedForGood(s: State, key: CacheKey, count: nat, steps: seq<Step>)
    requires Replaced(s, key, count)
    ensures Replaced(Exec(s, steps), key, count)
  {
    hide Next, Replaced;
    if steps != [] {
      ReplacedForGood(s, key, count, steps[..|steps| - 1]);
      StepKeepsReplaced(Exec(s, steps[..|steps| - 1]), steps[|steps| - 1], key, count);
    }
  }

  /** A driver whose session was stale is not handed out again to anyone it was shared with. */
  lemma StaleDriverIsReplaced(s: State, i: nat, after: seq<Step>, j: nat)
    requires Enabled(s, Go(i, Evict))
    requires var later := Exec(Next(s, Go(i, Evict)), after);
      Enabled(later, Go(j, Seek)) && SameDriver(s.threads[i].request, later.threads[j].request)
    ensures var later := Exec(Next(s, Go(i, Evict)), after);
            var t := Next(later, Go(j, Seek)).threads[j];
            t.Creating? || (t.Found? && t.work.driver >= |s.drivers|)
  {
    var evicted, key := Next(s, Go(i, Evict)), KeyOf(s.threads[i].request);
    assert Replaced(evicted, key, |s.drivers|);
    ReplacedForGood(evicted, key, |s.drivers|, after);
    var later := Exec(evicted, after);
    KeyIff(s.threads[i].request, later.threads[j].request);
    hide Exec, KeyOf, SameDriver;
  }

  /** A stale session costs only its own driver; a lost device, those at its address as well. */
  lemma OthersKeepTheirDrivers(s: State, i: nat, q: Request)
    requires Enabled(s, Go(i, Evict)) && q.Invoke? && KeyOf(q) in s.cache
    requires var p := s.threads[i].request;
      !SameDriver(p, q) && (s.threads[i].enodev ==> forall address :: IsAt(p, address) ==> !IsAt(q, address))
    ensures var next := Next(s, Go(i, Evict));
            KeyOf(q) in next.cache && next.cache[KeyOf(q)] == s.cache[KeyOf(q)]
  {
    var p := s.threads[i].request;
    KeyIff(p, q);
    if p.info.Some? {
      assert IsAt(p, p.info.value.address) ==> !IsAt(q, p.info.value.address) || !s.threads[i].enodev;
    }
  }

  /** A call that finds its session stale is made once more, on a driver that is made for it. */
  lemma StaleCallIsMadeAgain(s: State, i: nat, enodev: bool, made: (bool, Option<string>))
    requires i < |s.threads| && s.threads[i].Working? && s.threads[i].work.stage.Over? && !s.threads[i].retried
    requires s.threads[i].work.request.Invoke?
    ensures var request := s.threads[i].work.request;
            var s1 := Next(s, Go(i, Release(Stale(enodev))));
            var s2 := Next(s1, Go(i, Evict));
            var s3 := Next(s2, Go(i, Create(Some(made))));
            var s4 := Next(s3, Go(i, Look(true)));
            && s4.threads == s.threads[i := Queuing(Work(request, |s.drivers|, Syncing), true)]
            && s4.drivers == s.drivers + [Driver(KeyOf(request), made.0, made.1)]
            && s4.owners == s.owners - {LockOf(request)}
  {
    hide LockOf, KeyOf, Evicted;
    var request := s.threads[i].work.request;
    var s1 := Next(s, Go(i, Release(Stale(enodev))));
    assert s1.threads == s.threads[i := Recovering(request, enodev)];
    var s2 := Next(s1, Go(i, Evict));
    assert s2.threads == s.threads[i := Creating(request, true)];
    var s3 := Next(s2, Go(i, Create(Some(made))));
    assert s3.threads == s.threads[i := Found(Work(request, |s.drivers|, Syncing), true)];
  }

  // -------------------------------------------------------------------------
  // The answer that a request gets
  // -------------------------------------------------------------------------

  /**
    What has happened to a thread's request.  `calls`: how often its function was
    called.  `ended`: how its last call, or its batch read, came to its end.
    `hung`, `busy`, `missing`: the deadline passed, the lock stayed taken, there
    was no driver or no such function.
  */
  datatype Tale = Tale(calls: nat, ended: Option<Outcome>, hung: bool, busy: bool, missing: bool)

  function Told(tale: Tale, s: State, step: Step, i: nat): Tale {
    if !Enabled(s, step) then tale
    else if step == Act(Awaited(i), Call) then tale.(calls := tale.calls + 1)
    else if !step.Go? || step.i != i then tale
    else
      match step.move
      case Begin(_) => Tale(0, None, false, false, false)
      case Create(made) => if made.None? then tale.(missing := true) else tale
      case Look(present) => if present then tale else tale.(missing := true)
      case GiveUp => tale.(busy := true)
      case TimeOut => tale.(hung := true)
      case Release(outcome) => tale.(ended := Some(outcome))
      case _ => tale
  }

  function TaleOf(n: nat, steps: seq<Step>, i: nat): Tale {
    if steps == [] then Tale(0, None, false, false, false)
    else
      var before := steps[..|steps| - 1];
      Told(TaleOf(n, before, i), Exec(Start(n), before), steps[|steps| - 1], i)
  }

  /** The one answer that a tale warrants. */
  ghost predicate Warrants(request: Request, tale: Tale, reply: Reply) {
    if tale.busy then reply == Busy && tale.calls <= 1
    else if tale.hung then reply == TimedOut && tale.calls <= 2
    else if tale.missing then reply == Refused && tale.calls <= 1
    else
      && tale.ended.Some?
      && if request.BatchRead? then reply == Result
         else
           match tale.ended.value
           case Done => reply == Result && 1 <= tale.calls <= 2
           case Failed => reply == Refused && 1 <= tale.calls <= 2
           case Stale(_) => reply == Refused && tale.calls == 2
  }

  ghost predicate Undecided(tale: Tale, calls: nat, retried: bool) {
    && !tale.hung && !tale.busy && !tale.missing && tale.calls == calls
    && (if retried then tale.ended.Some? && tale.ended.value.Stale? else tale.ended.None?)
  }

  function Before(retried: bool): nat {
    if retried then 1 else 0
  }

  function Made(stage: Stage): nat {
    if stage.Running? || stage.Over? then 1 else 0
  }

  ghost predicate Fits(t: Thread, tale: Tale) {
    match t
    case Idle => true
    case Seeking(_) => Undecided(tale, 0, false)
    case Creating(_, retried) => Undecided(tale, Before(retried), retried)
    case Found(work, retried) => Undecided(tale, Before(retried), retried) && work.request.Invoke? && work.stage.Syncing?
    case Queuing(work, retried) => Undecided(tale, Before(retried), retried) && work.request.Invoke? && work.stage.Syncing?
    case Working(work, retried) => Undecided(tale, Before(retried) + Made(work.stage), retried) && work.request.Invoke?
    case Recovering(_, _) => Undecided(tale, 1, true)
    case BatchQueuing(request) => Undecided(tale, 0, false) && request.BatchRead?
    case BatchReading(request) => Undecided(tale, 0, false) && request.BatchRead?
    case Answered(request, reply) => Warrants(request, tale, reply)
  }

  lemma OwnMoveFits(s: State, i: nat, move: Move, tale: Tale)
    requires Enabled(s, Go(i, move)) && Fits(s.threads[i], tale)
    ensures i < |Moved(s, i, move).threads| && Fits(Moved(s, i, move).threads[i], Told(tale, s, Go(i, move), i))
  {
    hide LockOf, KeyOf, Evicted;
  }

  lemma OthersMove(s: State, j: nat, move: Move, i: nat)
    requires Enabled(s, Go(j, move)) && i < |s.threads| && i != j
    ensures i < |Moved(s, j, move).threads| && Moved(s, j, move).threads[i] == s.threads[i]
  {
    hide LockOf, KeyOf, Evicted;
  }

  lemma ActFits(s: State, owner: Owner, action: Action, i: nat, tale: Tale)
    requires Enabled(s, Act(owner, action)) && i < |s.threads| && Fits(s.threads[i], tale)
    ensures i < |Acted(s, owner, action).threads|
    ensures Fits(Acted(s, owner, action).threads[i], Told(tale, s, Act(owner, action), i))
  {
    hide Named;
  }

  lemma ToldFits(s: State, step: Step, i: nat, tale: Tale)
    requires i < |s.threads| && Fits(s.threads[i], tale)
    ensures i < |Next(s, step).threads| && Fits(Next(s, step).threads[i], Told(tale, s, step, i))
  {
    if Enabled(s, step) {
      match step
      case Act(owner, action) => ActFits(s, owner, action, i, tale);
      case Go(j, move) =>
        hide Enabled, Moved, Acted, Fits;
        if j == i {
          OwnMoveFits(s, i, move, tale);
        } else {
          OthersMove(s, j, move, i);
        }
    }
  }

  lemma {:induction false} TaleFits(n: nat, steps: seq<Step>, i: nat)
    requires i < n
    ensures var s := Exec(Start(n), steps); i < |s.threads| && Fits(s.threads[i], TaleOf(n, steps, i))
  {
    hide Next, Told;
    if steps != [] {
      hide Fits;
      var before := steps[..|steps| - 1];
      TaleFits(n, before, i);
      ToldFits(Exec(Start(n), before), steps[|steps| - 1], i, TaleOf(n, before, i));
    }
  }

  /**
    Every answer is true: a result means that the function was called and ended
    well, busy that the lock stayed taken, timed out that the call was given up
    on, and refused that there was nothing to call, or that it failed, or found
    its session stale for a second time; no request has its function called more
    than twice.
  */
  lemma AnswersAreTrue(n: nat, steps: seq<Step>, i: nat)
    requires i < n
    requires var s := Exec(Start(n), steps); i < |s.threads| && s.threads[i].Answered?
    ensures var t := Exec(Start(n), steps).threads[i];
            Warrants(t.request, TaleOf(n, steps, i), t.reply)
  {
    TaleFits(n, steps, i);
  }
}
