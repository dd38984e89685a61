/**
  Calls on instruments, one at a time for each physical device.

  Request threads share a cache of drivers and a table of locks.  A driver call
  runs on a worker under a deadline.  When the deadline passes, the request is
  answered and its worker is abandoned: it goes on, and its lock is never freed.
*/
module DeviceLocks {
  import opened Options

  // -------------------------------------------------------------------------
  // Requests, and what they share
  // -------------------------------------------------------------------------

  /** What a request says of its net; "" where it names no address or device. */
  datatype NetInfo = NetInfo(address: string, deviceId: string, channel: Option<string>, pin: Option<string>, rest: string)

  datatype Request = Invoke(device: string, info: Option<NetInfo>) | BatchRead(deviceId: string)

  datatype CacheKey = ByAddress(device: string, address: string) | ByInfo(device: string, info: Option<NetInfo>)

  datatype LockId = OnAddress(address: string) | OnKey(key: CacheKey)

  /** Drivers are cached by address, whatever the channel, and otherwise by all that the request says. */
  function KeyOf(request: Request): CacheKey
    requires request.Invoke?
  {
    if request.info.Some? && request.info.value.address != "" then ByAddress(request.device, request.info.value.address)
    else ByInfo(request.device, request.info)
  }

  /** A stated device comes before the address, and the address before the driver. */
  function LockOf(request: Request): LockId {
    match request
    case BatchRead(deviceId) => OnAddress(if deviceId != "" then deviceId else "labjack:ANY")
    case Invoke(_, None) => OnKey(KeyOf(request))
    case Invoke(_, Some(info)) =>
      if info.deviceId != "" then OnAddress(info.deviceId)
      else if info.address != "" then OnAddress(info.address)
      else OnKey(KeyOf(request))
  }

  /** The channel that a request names: saved nets call it a pin. */
  function Named(request: Request): Option<string> {
    if !request.Invoke? || request.info.None? then None
    else if request.info.value.channel.Some? then request.info.value.channel
    else request.info.value.pin
  }

  // -------------------------------------------------------------------------
  // One lock
  // -------------------------------------------------------------------------

  datatype Ending<T> = Value(value: T) | Raised | Overdue

  datatype CallResult<T> = Returned(value: T) | DriverError | DeviceBusy | DeviceOperationTimeout

  class DeviceLock {
    var held: bool

    constructor ()
      ensures !held
    {
      held := false;
    }

    /**
      A call under this lock, which others may hold for the whole of the wait.
      The lock stays held when, and only when, the call did not end in time.
    */
    method LockedCall<T>(ending: Ending<T>) returns (result: CallResult<T>)
      modifies this
      ensures result.DeviceBusy? <==> old(held)
      ensures held <==> old(held) || ending.Overdue?
      ensures !old(held) ==>
                match ending
                case Value(value) => result == Returned(value)
                case Raised => result == DriverError
                case Overdue => result == DeviceOperationTimeout
    {
      if held {
        return DeviceBusy;
      }
      held := true;
      var wedged := false;
      match ending {
        case Value(value) =>
          result := Returned(value);
        case Raised =>
          result := DriverError;
        case Overdue =>
          result := DeviceOperationTimeout;
          wedged := true;
      }
      if !wedged {
        held := false;
      }
    }
  }

  // -------------------------------------------------------------------------
  // The threads
  // -------------------------------------------------------------------------

  /** A driver, the channel that it points at, and whether it can be pointed at another. */
  datatype Driver = Driver(key: CacheKey, repointable: bool, channel: Option<string>)

  datatype Stage = Syncing | Synced(raised: bool) | Running | Over

  /** A driver call: first the channel is set, then the function is called. */
  datatype Work = Work(request: Request, driver: nat, stage: Stage)

  datatype Reply = Result | Refused | Busy | TimedOut

  datatype Thread =
    | Idle
    | Seeking(request: Request)                      // in the cache
    | Creating(request: Request, retried: bool)
    | Found(work: Work, retried: bool)
    | Queuing(work: Work, retried: bool)             // for the lock
    | Working(work: Work, retried: bool)             // holds the lock; the call runs on a worker
    | Recovering(request: Request, enodev: bool)     // the session was stale; the lock is free again
    | BatchQueuing(request: Request)
    | BatchReading(request: Request)                 // holds the lock; there is no deadline
    | Answered(request: Request, reply: Reply)

  /** Who holds a lock.  The lock itself knows only that it is held. */
  datatype Owner = Awaited(i: nat) | Abandoned(k: nat)

  /** A function was called, on a driver in the state that it then had. */
  datatype Ran = Ran(work: Work, driver: Driver)

  datatype State = State(
    threads: seq<Thread>,
    abandoned: seq<Work>,
    owners: map<LockId, Owner>,
    drivers: seq<Driver>,
    cache: map<CacheKey, nat>,
    ran: seq<Ran>)

  /** How a call ended.  A stale session is found again once. */
  datatype Outcome = Done | Failed | Stale(enodev: bool)

  /** What a driver call does next. */
  datatype Action =
    | Sync(raises: bool, leaves: Option<string>)
    | Call
    | Return(left: Option<string>)

  datatype Move =
    | Begin(request: Request)
    | Seek
    | Create(made: Option<(bool, Option<string>)>)
    | Look(present: bool)
    | Acquire
    | GiveUp
    | TimeOut
    | Release(outcome: Outcome)
    | Evict

  datatype Step = Go(i: nat, move: Move) | Act(owner: Owner, action: Action)

  predicate Holding(s: State, owner: Owner) {
    match owner
    case Awaited(i) => i < |s.threads| && (s.threads[i].Working? || s.threads[i].BatchReading?)
    case Abandoned(k) => k < |s.abandoned|
  }

  function RequestAt(s: State, owner: Owner): Request
    requires Holding(s, owner)
  {
    match owner
    case Awaited(i) => if s.threads[i].Working? then s.threads[i].work.request else s.threads[i].request
    case Abandoned(k) => s.abandoned[k].request
  }

  predicate HasWork(s: State, owner: Owner) {
    Holding(s, owner) && (owner.Awaited? ==> s.threads[owner.i].Working?)
  }

  function WorkAt(s: State, owner: Owner): Work
    requires HasWork(s, owner)
  {
    match owner
    case Awaited(i) => s.threads[i].work
    case Abandoned(k) => s.abandoned[k]
  }

  /** An operation on the device is going on, on behalf of a request or of none any more. */
  predicate Executing(s: State, owner: Owner) {
    Holding(s, owner) && (HasWork(s, owner) ==> !WorkAt(s, owner).stage.Over?)
  }

  predicate DoesNext(stage: Stage, action: Action) {
    match action
    case Sync(_, _) => stage.Syncing?
    case Call => stage.Synced?
    case Return(_) => stage.Running?
  }

  predicate IsFree(s: State, request: Request) {
    LockOf(request) !in s.owners
  }

  predicate Enabled(s: State, step: Step) {
    match step
    case Act(owner, action) =>
      && HasWork(s, owner) && WorkAt(s, owner).driver < |s.drivers|
      && DoesNext(WorkAt(s, owner).stage, action)
    case Go(i, move) =>
      && i < |s.threads|
      && var t := s.threads[i];
         match move
         case Begin(_) => t.Idle? || t.Answered?
         case Seek => t.Seeking? && t.request.Invoke?
         case Create(_) => t.Creating? && t.request.Invoke?
         case Look(_) => t.Found?
         case Acquire => (t.Queuing? && IsFree(s, t.work.request)) || (t.BatchQueuing? && IsFree(s, t.request))
         case GiveUp => (t.Queuing? && !IsFree(s, t.work.request)) || (t.BatchQueuing? && !IsFree(s, t.request))
         case TimeOut => t.Working?
         case Release(_) => (t.Working? && t.work.stage.Over?) || t.BatchReading?
         case Evict => t.Recovering? && t.request.Invoke?
  }

  function Put(s: State, i: nat, t: Thread): State
    requires i < |s.threads|
  {
    s.(threads := s.threads[i := t])
  }

  function Acquired(s: State, i: nat): State
    requires Enabled(s, Go(i, Acquire))
  {
    match s.threads[i]
    case Queuing(work, retried) =>
      Put(s.(owners := s.owners[LockOf(work.request) := Awaited(i)]), i, Working(work, retried))
    case BatchQueuing(request) =>
      Put(s.(owners := s.owners[LockOf(request) := Awaited(i)]), i, BatchReading(request))
  }

  function Released(s: State, i: nat, outcome: Outcome): State
    requires Enabled(s, Go(i, Release(outcome)))
  {
    match s.threads[i]
    case BatchReading(request) =>
      Put(s.(owners := s.owners - {LockOf(request)}), i, Answered(request, Result))
    case Working(work, retried) =>
      Put(s.(owners := s.owners - {LockOf(work.request)}), i,
          match outcome
          case Done => Answered(work.request, Result)
          case Failed => Answered(work.request, Refused)
          case Stale(enodev) => if retried then Answered(work.request, Refused) else Recovering(work.request, enodev))
  }

  /** The stale driver leaves the cache; when the device itself was lost, so do all drivers at its address. */
  function Evicted(cache: map<CacheKey, nat>, request: Request, enodev: bool): map<CacheKey, nat>
    requires request.Invoke?
  {
    map key | key in cache
      && key != KeyOf(request)
      && !(enodev && KeyOf(request).ByAddress? && key.ByAddress? && key.address == KeyOf(request).address)
      :: cache[key]
  }

  function Moved(s: State, i: nat, move: Move): State
    requires Enabled(s, Go(i, move))
  {
    var t := s.threads[i];
    match move
    case Begin(request) => Put(s, i, if request.Invoke? then Seeking(request) else BatchQueuing(request))
    case Seek =>
      Put(s, i,
          if KeyOf(t.request) in s.cache then Found(Work(t.request, s.cache[KeyOf(t.request)], Syncing), false)
          else Creating(t.request, false))
    case Create(made) =>
      if made.None? then Put(s, i, Answered(t.request, Refused))
      else
        Put(s.(drivers := s.drivers + [Driver(KeyOf(t.request), made.value.0, made.value.1)],
               cache := s.cache[KeyOf(t.request) := |s.drivers|]),
            i, Found(Work(t.request, |s.drivers|, Syncing), t.retried))
    case Look(present) => Put(s, i, if present then Queuing(t.work, t.retried) else Answered(t.work.request, Refused))
    case Acquire => Acquired(s, i)
    case GiveUp => Put(s, i, Answered(if t.Queuing? then t.work.request else t.request, Busy))
    case TimeOut =>
      Put(s.(abandoned := s.abandoned + [t.work], owners := s.owners[LockOf(t.work.request) := Abandoned(|s.abandoned|)]),
          i, Answered(t.work.request, TimedOut))
    case Release(outcome) => Released(s, i, outcome)
    case Evict => Put(s.(cache := Evicted(s.cache, t.request, t.enodev)), i, Creating(t.request, true))
  }

  /** A worker goes on, whether or not its request still waits for it. */
  function WithStage(s: State, owner: Owner, stage: Stage): State
    requires HasWork(s, owner)
  {
    match owner
    case Awaited(i) => Put(s, i, s.threads[i].(work := s.threads[i].work.(stage := stage)))
    case Abandoned(k) => s.(abandoned := s.abandoned[k := s.abandoned[k].(stage := stage)])
  }

  function Pointed(s: State, driver: nat, channel: Option<string>): State
    requires driver < |s.drivers|
  {
    s.(drivers := s.drivers[driver := s.drivers[driver].(channel := channel)])
  }

  /** Setting the channel may fail; the call goes ahead all the same. */
  function Acted(s: State, owner: Owner, action: Action): State
    requires Enabled(s, Act(owner, action))
  {
    var work := WorkAt(s, owner);
    match action
    case Sync(raises, leaves) =>
      if Named(work.request).None? || !s.drivers[work.driver].repointable then WithStage(s, owner, Synced(false))
      else WithStage(Pointed(s, work.driver, if raises then leaves else Named(work.request)), owner, Synced(raises))
    case Call =>
      WithStage(s.(ran := s.ran + [Ran(work, s.drivers[work.driver])]), owner, Running)
    case Return(left) => WithStage(Pointed(s, work.driver, left), owner, Over)
  }

  /** A step that is not enabled changes nothing. */
  function Next(s: State, step: Step): State {
    if !Enabled(s, step) then s
    else
      match step
      case Go(i, move) => Moved(s, i, move)
      case Act(owner, action) => Acted(s, owner, action)
  }

  function Start(n: nat): State {
    State(seq(n, _ => Idle), [], map[], [], map[], [])
  }

  function Exec(s: State, steps: seq<Step>): State {
    if steps == [] then s else Next(Exec(s, steps[..|steps| - 1]), steps[|steps| - 1])
  }

  // -------------------------------------------------------------------------
  // One operation at a time
  // -------------------------------------------------------------------------

  ghost predicate Locks(s: State) {
    && (forall owner :: Holding(s, owner) ==>
          LockOf(RequestAt(s, owner)) in s.owners && s.owners[LockOf(RequestAt(s, owner))] == owner)
    && (forall lock :: lock in s.owners ==> Holding(s, s.owners[lock]) && LockOf(RequestAt(s, s.owners[lock])) == lock)
  }

  predicate Holds(t: Thread) {
    t.Working? || t.BatchReading?
  }

  /** A thread that holds no lock, before or after. */
  lemma OutsideKeepsLocks(s: State, i: nat, t: Thread, next: State)
    requires Locks(s) && i < |s.threads| && !Holds(s.threads[i]) && !Holds(t)
    requires next.threads == s.threads[i := t] && next.abandoned == s.abandoned && next.owners == s.owners
    ensures Locks(next)
  {
    forall owner
      ensures Holding(next, owner) == Holding(s, owner)
      ensures Holding(s, owner) ==> RequestAt(next, owner) == RequestAt(s, owner)
    {
    }
    hide Holding, RequestAt, LockOf;
  }

  lemma AcquireKeepsLocks(s: State, i: nat)
    requires Locks(s) && Enabled(s, Go(i, Acquire))
    ensures Locks(Acquired(s, i))
  {
    var next := Acquired(s, i);
    hide LockOf;
    forall owner
      ensures Holding(next, owner) <==> owner == Awaited(i) || Holding(s, owner)
      ensures Holding(s, owner) ==> RequestAt(next, owner) == RequestAt(s, owner)
    {
    }
    assert !Holding(s, Awaited(i));
  }

  lemma ReleaseKeepsLocks(s: State, i: nat, outcome: Outcome)
    requires Locks(s) && Enabled(s, Go(i, Release(outcome)))
    ensures Locks(Released(s, i, outcome))
  {
    var next := Released(s, i, outcome);
    hide LockOf;
    assert Holding(s, Awaited(i));
    forall owner
      ensures Holding(next, owner) <==> owner != Awaited(i) && Holding(s, owner)
      ensures Holding(next, owner) ==> RequestAt(next, owner) == RequestAt(s, owner)
    {
    }
    assert next.owners == s.owners - {LockOf(RequestAt(s, Awaited(i)))};
    hide Released, Holding, RequestAt;
  }

  lemma TimeOutKeepsLocks(s: State, i: nat)
    requires Locks(s) && Enabled(s, Go(i, TimeOut))
    ensures Locks(Moved(s, i, TimeOut))
  {
    var next := Moved(s, i, TimeOut);
    var left := Abandoned(|s.abandoned|);
    hide LockOf;
    assert Holding(s, Awaited(i)) && !Holding(s, left) && Holding(next, left);
    forall owner
      ensures Holding(next, owner) <==> owner == left || (owner != Awaited(i) && Holding(s, owner))
      ensures Holding(next, owner) && owner != left ==> RequestAt(next, owner) == RequestAt(s, owner)
    {
    }
    assert RequestAt(next, left) == RequestAt(s, Awaited(i));
    hide Holding, RequestAt;
  }

  lemma MoveKeepsLocks(s: State, i: nat, move: Move)
    requires Locks(s) && Enabled(s, Go(i, move))
    ensures Locks(Moved(s, i, move))
  {
    if move.Acquire? {
      AcquireKeepsLocks(s, i);
    } else if move.Release? {
      ReleaseKeepsLocks(s, i, move.outcome);
    } else if move.TimeOut? {
      TimeOutKeepsLocks(s, i);
    } else {
      hide Locks, LockOf, KeyOf, Evicted;
      OutsideKeepsLocks(s, i, Moved(s, i, move).threads[i], Moved(s, i, move));
    }
  }

  lemma StageKeepsHolding(s: State, owner: Owner, stage: Stage, other: Owner)
    requires HasWork(s, owner)
    ensures var next := WithStage(s, owner, stage);
            && Holding(next, other) == Holding(s, other)
            && (Holding(s, other) ==> RequestAt(next, other) == RequestAt(s, other))
  {
  }

  /** An action changes drivers, the record of calls, and the stage of one work. */
  lemma ActedIsStaged(s: State, owner: Owner, action: Action) returns (staged: State, stage: Stage)
    requires Enabled(s, Act(owner, action))
    ensures staged.threads == s.threads && staged.abandoned == s.abandoned && staged.owners == s.owners && staged.cache == s.cache
    ensures HasWork(staged, owner) && Acted(s, owner, action) == WithStage(staged, owner, stage)
  {
    stage := match action
             case Call => Running
             case Return(_) => Over
             case Sync(raises, _) =>
               var work := WorkAt(s, owner);
               Synced(Named(work.request).Some? && s.drivers[work.driver].repointable && raises);
    var next := Acted(s, owner, action);
    staged := s.(drivers := next.drivers, ran := next.ran);
    hide Named;
  }

  lemma ActKeepsLocks(s: State, owner: Owner, action: Action)
    requires Locks(s) && Enabled(s, Act(owner, action))
    ensures Locks(Acted(s, owner, action))
  {
    var staged, stage := ActedIsStaged(s, owner, action);
    var next := WithStage(staged, owner, stage);
    assert next.owners == s.owners;
    forall other
      ensures Holding(next, other) == Holding(s, other) && (Holding(s, other) ==> RequestAt(next, other) == RequestAt(s, other))
    {
      StageKeepsHolding(staged, owner, stage, other);
    }
    hide LockOf, Holding, RequestAt, WithStage, Acted;
  }

  lemma {:induction false} ExecKeepsLocks(n: nat, steps: seq<Step>)
    ensures Locks(Exec(Start(n), steps))
  {
    if steps != [] {
      ExecKeepsLocks(n, steps[..|steps| - 1]);
      var s := Exec(Start(n), steps[..|steps| - 1]);
      var step := steps[|steps| - 1];
      if Enabled(s, step) {
        match step
        case Go(i, move) => MoveKeepsLocks(s, i, move);
        case Act(owner, action) => ActKeepsLocks(s, owner, action);
      }
    }
  }

  /** At most one operation at a time on a device, those that were abandoned included. */
  lemma OneAtATime(n: nat, steps: seq<Step>, a: Owner, b: Owner)
    requires var s := Exec(Start(n), steps);
      Executing(s, a) && Executing(s, b) && LockOf(RequestAt(s, a)) == LockOf(RequestAt(s, b))
    ensures a == b
  {
    ExecKeepsLocks(n, steps);
  }

  // -------------------------------------------------------------------------
  // A device that hangs
  // -------------------------------------------------------------------------

  /** Held for an operation that no request waits for. */
  predicate Wedged(s: State, lock: LockId) {
    lock in s.owners && s.owners[lock].Abandoned?
  }

  predicate Awaits(t: Thread, lock: LockId) {
    (t.Queuing? && LockOf(t.work.request) == lock) || (t.BatchQueuing? && LockOf(t.request) == lock)
  }

  predicate UsesNow(s: State, i: nat, lock: LockId) {
    Holding(s, Awaited(i)) && LockOf(RequestAt(s, Awaited(i))) == lock
  }

  /** A lock that is held, but by no request that is still served, was left by a call that hung. */
  lemma HeldForNoOne(n: nat, steps: seq<Step>, lock: LockId)
    requires var s := Exec(Start(n), steps);
      lock in s.owners && forall i :: !UsesNow(s, i, lock)
    ensures var s := Exec(Start(n), steps);
            Wedged(s, lock) && s.owners[lock].k < |s.abandoned| && LockOf(s.abandoned[s.owners[lock].k].request) == lock
  {
    ExecKeepsLocks(n, steps);
    var s := Exec(Start(n), steps);
    if s.owners[lock].Awaited? {
      assert UsesNow(s, s.owners[lock].i, lock);
    }
  }

  /** No request gets the lock, and each that asks for it can do nothing but answer busy. */
  ghost predicate OnlyBusy(s: State, lock: LockId) {
    && (forall i :: !UsesNow(s, i, lock))
    && (forall i: nat, move :: i < |s.threads| && Awaits(s.threads[i], lock) ==> CanOnlyBeBusy(s, i, move))
  }

  predicate CanOnlyBeBusy(s: State, i: nat, move: Move) {
    && (Enabled(s, Go(i, move)) <==> i < |s.threads| && move.GiveUp?)
    && (Enabled(s, Go(i, move)) ==> Moved(s, i, move).threads[i].Answered? && Moved(s, i, move).threads[i].reply.Busy?)
  }

  lemma WedgeMakesBusy(s: State, lock: LockId)
    requires Locks(s) && Wedged(s, lock)
    ensures OnlyBusy(s, lock)
  {
    hide LockOf;
    assert forall i :: !UsesNow(s, i, lock);
    hide Locks, UsesNow;
    forall i: nat, move | i < |s.threads| && Awaits(s.threads[i], lock)
      ensures CanOnlyBeBusy(s, i, move)
    {
    }
  }

  lemma MoveKeepsWedge(s: State, i: nat, move: Move, lock: LockId)
    requires Locks(s) && Wedged(s, lock) && Enabled(s, Go(i, move))
    ensures Wedged(Moved(s, i, move), lock)
  {
    assert Holding(s, Awaited(i)) ==> LockOf(RequestAt(s, Awaited(i))) != lock;
    hide Locks, LockOf, KeyOf;
  }

  lemma StepKeepsWedge(s: State, step: Step, lock: LockId)
    requires Locks(s) && Wedged(s, lock)
    ensures Locks(Next(s, step)) && Wedged(Next(s, step), lock)
  {
    hide Locks;
    if Enabled(s, step) {
      match step
      case Act(owner, action) =>
        ActKeepsLocks(s, owner, action);
      case Go(i, move) =>
        MoveKeepsLocks(s, i, move);
        MoveKeepsWedge(s, i, move, lock);
    }
  }

  /** Once a call on a device has hung, its lock stays held, whatever happens next, and everyone is told. */
  lemma {:induction false} WedgedMeansBusy(n: nat, before: seq<Step>, after: seq<Step>, lock: LockId)
    requires Wedged(Exec(Start(n), before), lock)
    ensures var s := Exec(Exec(Start(n), before), after);
            Locks(s) && Wedged(s, lock) && OnlyBusy(s, lock)
  {
    var s := Exec(Start(n), before);
    hide Locks, Wedged, OnlyBusy;
    if after == [] {
      ExecKeepsLocks(n, before);
    } else {
      WedgedMeansBusy(n, before, after[..|after| - 1], lock);
      StepKeepsWedge(Exec(s, after[..|after| - 1]), after[|after| - 1], lock);
    }
    WedgeMakesBusy(Exec(s, after), lock);
  }

  // -------------------------------------------------------------------------
  // The right channel
  // -------------------------------------------------------------------------

  /** Requests that share a driver share its lock, if any of them names a channel. */
  ghost predicate Agree(family: iset<Request>) {
    forall p, q :: p in family && q in family && p.Invoke? && q.Invoke? && KeyOf(p) == KeyOf(q) && Named(p).Some? ==>
      LockOf(p) == LockOf(q)
  }

  predicate Asks(step: Step, request: Request) {
    step.Go? && step.move.Begin? && step.move.request == request
  }

  /** Setting a channel fails. */
  predicate Raises(step: Step) {
    step.Act? && step.action.Sync? && step.action.raises
  }

  ghost predicate AskedIn(steps: seq<Step>, family: iset<Request>, mayRaise: bool) {
    && (forall k, request :: 0 <= k < |steps| && Asks(steps[k], request) ==> request in family)
    && (!mayRaise ==> forall k :: 0 <= k < |steps| ==> !Raises(steps[k]))
  }

  ghost predicate SaneWork(s: State, work: Work, family: iset<Request>) {
    && work.request in family && work.request.Invoke?
    && work.driver < |s.drivers| && s.drivers[work.driver].key == KeyOf(work.request)
  }

  ghost predicate SaneThread(s: State, t: Thread, family: iset<Request>) {
    && (t.Seeking? || t.Creating? || t.Recovering? ==> t.request in family && t.request.Invoke?)
    && (t.Found? || t.Queuing? || t.Working? ==> SaneWork(s, t.work, family))
    && (t.Found? || t.Queuing? ==> t.work.stage.Syncing?)
  }

  ghost predicate Sane(s: State, family: iset<Request>) {
    && (forall i :: 0 <= i < |s.threads| ==> SaneThread(s, s.threads[i], family))
    && (forall k :: 0 <= k < |s.abandoned| ==> SaneWork(s, s.abandoned[k], family))
    && (forall key :: key in s.cache ==> s.cache[key] < |s.drivers| && s.drivers[s.cache[key]].key == key)
  }

  /** Between setting the channel and calling the function. */
  predicate OnChannel(work: Work, driver: Driver) {
    work.stage == Synced(false) && driver.repointable && Named(work.request).Some? ==> driver.channel == Named(work.request)
  }

  ghost predicate Aligned(s: State) {
    forall owner :: HasWork(s, owner) && WorkAt(s, owner).driver < |s.drivers| ==>
      OnChannel(WorkAt(s, owner), s.drivers[WorkAt(s, owner).driver])
  }

  ghost predicate RanOnChannel(s: State) {
    forall k :: 0 <= k < |s.ran| ==> s.ran[k].work.stage.Synced? && OnChannel(s.ran[k].work, s.ran[k].driver)
  }

  /** More drivers do no harm. */
  lemma MoreDriversKeepSane(s: State, next: State, family: iset<Request>)
    requires Sane(s, family)
    requires |s.drivers| <= |next.drivers|
    requires forall d :: 0 <= d < |s.drivers| ==> next.drivers[d].key == s.drivers[d].key
    requires next.threads == s.threads && next.abandoned == s.abandoned && next.cache == s.cache
    ensures Sane(next, family)
  {
    hide KeyOf;
  }

  lemma MovedThreadIsSane(s: State, i: nat, move: Move, family: iset<Request>)
    requires Sane(s, family) && Enabled(s, Go(i, move)) && (move.Begin? ==> move.request in family)
    ensures SaneThread(Moved(s, i, move), Moved(s, i, move).threads[i], family)
  {
    assert SaneThread(s, s.threads[i], family);
    hide LockOf, KeyOf, Evicted;
  }

  lemma MoveKeepsSane(s: State, i: nat, move: Move, family: iset<Request>)
    requires Sane(s, family) && Enabled(s, Go(i, move)) && (move.Begin? ==> move.request in family)
    ensures Sane(Moved(s, i, move), family)
  {
    var next := Moved(s, i, move);
    MovedThreadIsSane(s, i, move, family);
    MoreDriversKeepSane(s, next.(threads := s.threads, abandoned := s.abandoned, cache := s.cache), family);
    assert SaneThread(s, s.threads[i], family);
    hide LockOf, KeyOf, SaneThread;
  }

  lemma StageKeepsSane(s: State, owner: Owner, stage: Stage, family: iset<Request>)
    requires Sane(s, family) && HasWork(s, owner)
    ensures Sane(WithStage(s, owner, stage), family)
  {
    hide LockOf, KeyOf;
  }

  lemma ActKeepsSane(s: State, owner: Owner, action: Action, family: iset<Request>)
    requires Sane(s, family) && Enabled(s, Act(owner, action))
    ensures Sane(Acted(s, owner, action), family)
  {
    var work := WorkAt(s, owner);
    var next := Acted(s, owner, action);
    var stage := WorkAt(next, owner).stage;
    var pointed := s.(drivers := next.drivers, ran := next.ran);
    MoreDriversKeepSane(s, pointed, family);
    StageKeepsSane(pointed, owner, stage, family);
    hide Sane, LockOf, KeyOf, Named;
    assert next == WithStage(pointed, owner, stage);
  }

  lemma MoveKeepsAligned(s: State, i: nat, move: Move, family: iset<Request>)
    requires Sane(s, family) && Aligned(s) && Enabled(s, Go(i, move))
    ensures Aligned(Moved(s, i, move)) && Moved(s, i, move).ran == s.ran
  {
    var next := Moved(s, i, move);
    assert SaneThread(s, s.threads[i], family);
    if move.TimeOut? {
      assert HasWork(s, Awaited(i));
    }
    hide LockOf, KeyOf, Evicted;
    forall owner | HasWork(next, owner) && WorkAt(next, owner).driver < |next.drivers|
      ensures OnChannel(WorkAt(next, owner), next.drivers[WorkAt(next, owner).driver])
    {
      if owner == Awaited(i) || (move.TimeOut? && owner == Abandoned(|s.abandoned|)) {
      } else {
        assert HasWork(s, owner) && WorkAt(s, owner) == WorkAt(next, owner);
        assert SaneWork(s, WorkAt(s, owner), family);
      }
    }
  }

  /** Whoever has set a driver's channel keeps it to itself until its call is over. */
  lemma OneWorkPerDriver(s: State, family: iset<Request>, a: Owner, b: Owner)
    requires Locks(s) && Sane(s, family) && Agree(family)
    requires HasWork(s, a) && HasWork(s, b) && WorkAt(s, a).driver == WorkAt(s, b).driver
    requires Named(WorkAt(s, a).request).Some?
    ensures a == b
  {
    assert SaneWork(s, WorkAt(s, a), family) && SaneWork(s, WorkAt(s, b), family);
    hide LockOf, KeyOf, Named;
  }

  /** Another request's work, on this driver or another. */
  lemma OtherStaysAligned(s: State, owner: Owner, action: Action, family: iset<Request>, other: Owner)
    requires Locks(s) && Sane(s, family) && Agree(family) && Aligned(s)
    requires Enabled(s, Act(owner, action)) && other != owner && HasWork(s, other)
    requires WorkAt(s, other).driver < |s.drivers|
    ensures var next := Acted(s, owner, action);
            && HasWork(next, other) && WorkAt(next, other) == WorkAt(s, other)
            && OnChannel(WorkAt(s, other), next.drivers[WorkAt(s, other).driver])
  {
    if WorkAt(s, other).driver == WorkAt(s, owner).driver && Named(WorkAt(s, other).request).Some? {
      OneWorkPerDriver(s, family, other, owner);
    }
    hide Locks, Sane, Agree, Named;
  }

  /** Its own work, and the function that it may have called. */
  lemma OwnStaysAligned(s: State, owner: Owner, action: Action)
    requires Aligned(s) && RanOnChannel(s) && Enabled(s, Act(owner, action))
    ensures var next := Acted(s, owner, action);
            && HasWork(next, owner) && WorkAt(next, owner).driver == WorkAt(s, owner).driver < |next.drivers|
            && OnChannel(WorkAt(next, owner), next.drivers[WorkAt(next, owner).driver])
            && RanOnChannel(next)
  {
  }

  lemma ActKeepsAligned(s: State, owner: Owner, action: Action, family: iset<Request>)
    requires Locks(s) && Sane(s, family) && Agree(family) && Aligned(s) && RanOnChannel(s)
    requires Enabled(s, Act(owner, action))
    ensures Aligned(Acted(s, owner, action)) && RanOnChannel(Acted(s, owner, action))
  {
    var next := Acted(s, owner, action);
    OwnStaysAligned(s, owner, action);
    hide Locks, Sane, Agree, OnChannel, RanOnChannel;
    forall other | HasWork(next, other) && WorkAt(next, other).driver < |next.drivers|
      ensures OnChannel(WorkAt(next, other), next.drivers[WorkAt(next, other).driver])
    {
      if other != owner {
        assert HasWork(s, other) && WorkAt(s, other) == WorkAt(next, other) && |next.drivers| == |s.drivers|;
        OtherStaysAligned(s, owner, action, family, other);
      }
    }
  }

  lemma {:induction false} ExecKeepsChannels(n: nat, steps: seq<Step>, family: iset<Request>, mayRaise: bool)
    requires Agree(family) && AskedIn(steps, family, mayRaise)
    ensures var s := Exec(Start(n), steps); Locks(s) && Sane(s, family) && Aligned(s) && RanOnChannel(s)
  {
    if steps != [] {
      var before := steps[..|steps| - 1];
      var step := steps[|steps| - 1];
      assert AskedIn(before, family, mayRaise);
      ExecKeepsChannels(n, before, family, mayRaise);
      ExecKeepsLocks(n, steps);
      var s := Exec(Start(n), before);
      hide Agree, Locks, Sane, Aligned, RanOnChannel;
      if Enabled(s, step) {
        match step
        case Go(i, move) =>
          assert move.Begin? ==> Asks(step, move.request);
          MoveKeepsSane(s, i, move, family);
          MoveKeepsAligned(s, i, move, family);
          RanStays(s, Moved(s, i, move));
        case Act(owner, action) =>
          ActKeepsSane(s, owner, action, family);
          ActKeepsAligned(s, owner, action, family);
      }
    }
  }

  lemma RanStays(s: State, next: State)
    requires RanOnChannel(s) && next.ran == s.ran
    ensures RanOnChannel(next)
  {
  }

  // -------------------------------------------------------------------------
  // When setting a channel does not fail
  // -------------------------------------------------------------------------

  ghost predicate Unraised(s: State) {
    && (forall i :: 0 <= i < |s.threads| && s.threads[i].Working? ==> s.threads[i].work.stage != Synced(true))
    && (forall k :: 0 <= k < |s.abandoned| ==> s.abandoned[k].stage != Synced(true))
    && (forall k :: 0 <= k < |s.ran| ==> s.ran[k].work.stage == Synced(false))
  }

  lemma MoveKeepsUnraised(s: State, i: nat, move: Move, family: iset<Request>)
    requires Unraised(s) && Sane(s, family) && Enabled(s, Go(i, move))
    ensures Unraised(Moved(s, i, move))
  {
    assert SaneThread(s, s.threads[i], family);
    hide LockOf, KeyOf, Evicted, SaneWork;
  }

  lemma ActKeepsUnraised(s: State, owner: Owner, action: Action)
    requires Unraised(s) && Enabled(s, Act(owner, action)) && !Raises(Act(owner, action))
    ensures Unraised(Acted(s, owner, action))
  {
    hide LockOf, KeyOf, Named;
  }

  lemma {:induction false} ExecKeepsUnraised(n: nat, steps: seq<Step>, family: iset<Request>)
    requires Agree(family) && AskedIn(steps, family, false)
    ensures Unraised(Exec(Start(n), steps))
  {
    if steps != [] {
      var before := steps[..|steps| - 1];
      var step := steps[|steps| - 1];
      assert AskedIn(before, family, false) && !Raises(step);
      ExecKeepsUnraised(n, before, family);
      ExecKeepsChannels(n, before, family, false);
      var s := Exec(Start(n), before);
      hide Agree, Locks, Sane, Aligned, RanOnChannel, Unraised, AskedIn;
      if Enabled(s, step) {
        match step
        case Go(i, move) => MoveKeepsUnraised(s, i, move, family);
        case Act(owner, action) => ActKeepsUnraised(s, owner, action);
      }
    }
  }

  ghost predicate RanIn(s: State, family: iset<Request>) {
    forall k :: 0 <= k < |s.ran| ==> s.ran[k].work.request in family && s.ran[k].work.request.Invoke?
  }

  lemma StepKeepsRanIn(s: State, step: Step, family: iset<Request>)
    requires Sane(s, family) && RanIn(s, family)
    ensures RanIn(Next(s, step), family)
  {
    if Enabled(s, step) {
      match step
      case Go(i, move) => MovesRunNothing(s, i, move);
      case Act(owner, action) =>
        assert SaneWork(s, WorkAt(s, owner), family);
    }
  }

  lemma MovesRunNothing(s: State, i: nat, move: Move)
    requires Enabled(s, Go(i, move))
    ensures Moved(s, i, move).ran == s.ran
  {
    hide LockOf, KeyOf, Evicted;
  }

  lemma {:induction false} ExecKeepsRanIn(n: nat, steps: seq<Step>, family: iset<Request>)
    requires Agree(family) && AskedIn(steps, family, true)
    ensures RanIn(Exec(Start(n), steps), family)
  {
    if steps != [] {
      var before := steps[..|steps| - 1];
      assert AskedIn(before, family, true);
      ExecKeepsRanIn(n, before, family);
      ExecKeepsChannels(n, before, family, true);
      hide Next, Sane, RanIn;
      StepKeepsRanIn(Exec(Start(n), before), steps[|steps| - 1], family);
    }
  }

  /**
    Every function is called with its driver on the channel that its request
    names, unless the driver has but one, or setting it failed: provided that
    requests that share a driver share its lock.
  */
  lemma RunsOnItsChannel(n: nat, steps: seq<Step>, family: iset<Request>, k: nat)
    requires Agree(family) && AskedIn(steps, family, true) && k < |Exec(Start(n), steps).ran|
    ensures var ran := Exec(Start(n), steps).ran[k];
            ran.work.stage == Synced(false) && ran.driver.repointable && Named(ran.work.request).Some? ==>
              ran.driver.channel == Named(ran.work.request)
  {
    ExecKeepsChannels(n, steps, family, true);
  }

  /** Every function that was called found its driver on the channel that its request names, if the driver has several. */
  ghost predicate AllOnChannel(s: State) {
    forall k :: 0 <= k < |s.ran| && s.ran[k].driver.repointable && Named(s.ran[k].work.request).Some? ==>
      s.ran[k].driver.channel == Named(s.ran[k].work.request)
  }

  lemma Then(n: nat, steps: seq<Step>, step: Step, family: iset<Request>, mayRaise: bool) returns (longer: seq<Step>)
    requires AskedIn(steps, family, mayRaise)
    requires (step.Go? && step.move.Begin? ==> step.move.request in family) && (Raises(step) ==> mayRaise)
    ensures longer == steps + [step] && AskedIn(longer, family, mayRaise)
    ensures Exec(Start(n), longer) == Next(Exec(Start(n), steps), step)
  {
    longer := steps + [step];
    assert longer[..|steps|] == steps;
  }

  lemma PutTwice(s: State, i: nat, t: Thread, u: Thread)
    requires i < |s.threads|
    ensures Put(Put(s, i, t), i, u) == Put(s, i, u)
  {
    assert s.threads[i := t][i := u] == s.threads[i := u];
  }

  /** The driver that a request would get, and the state that getting it leaves. */
  function DriverFor(s: State, request: Request, made: (bool, Option<string>)): (nat, State)
    requires request.Invoke?
  {
    if KeyOf(request) in s.cache then (s.cache[KeyOf(request)], s)
    else (|s.drivers|, s.(drivers := s.drivers + [Driver(KeyOf(request), made.0, made.1)],
                          cache := s.cache[KeyOf(request) := |s.drivers|]))
  }

  lemma GetsToQueue(n: nat, before: seq<Step>, family: iset<Request>, i: nat, request: Request, made: (bool, Option<string>), mayRaise: bool)
    returns (steps: seq<Step>)
    requires AskedIn(before, family, mayRaise) && request in family && request.Invoke?
    requires var s := Exec(Start(n), before); i < |s.threads| && s.threads[i].Idle?
    ensures AskedIn(steps, family, mayRaise)
    ensures var (driver, s) := DriverFor(Exec(Start(n), before), request, made);
            Exec(Start(n), steps) == Put(s, i, Queuing(Work(request, driver, Syncing), false))
  {
    var s := Exec(Start(n), before);
    hide Exec, LockOf, KeyOf, Named, AskedIn, Acted, Acquired, Released, Evicted;
    var (driver, after) := DriverFor(s, request, made);
    var work := Work(request, driver, Syncing);
    steps := Then(n, before, Go(i, Begin(request)), family, mayRaise);
    steps := Then(n, steps, Go(i, Seek), family, mayRaise);
    PutTwice(s, i, Seeking(request), Exec(Start(n), steps).threads[i]);
    if KeyOf(request) !in s.cache {
      assert Exec(Start(n), steps) == Put(s, i, Creating(request, false));
      steps := Then(n, steps, Go(i, Create(Some(made))), family, mayRaise);
      PutTwice(after, i, Creating(request, false), Found(work, false));
    }
    assert Exec(Start(n), steps) == Put(after, i, Found(work, false));
    steps := Then(n, steps, Go(i, Look(true)), family, mayRaise);
    PutTwice(after, i, Found(work, false), Queuing(work, false));
  }

  lemma SetsItsChannel(p: Request, family: iset<Request>, mayRaise: bool) returns (steps: seq<Step>)
    requires p in family && p.Invoke? && Named(p).Some?
    ensures AskedIn(steps, family, mayRaise)
    ensures Exec(Start(2), steps)
         == State([Working(Work(p, 0, Synced(false)), false), Idle], [], map[LockOf(p) := Awaited(0)],
                  [Driver(KeyOf(p), true, Named(p))], map[KeyOf(p) := 0], [])
  {
    steps := GetsToQueue(2, [], family, 0, p, (true, None), mayRaise);
    hide AskedIn, KeyOf, LockOf, Named;
    assert Exec(Start(2), steps)
        == State([Queuing(Work(p, 0, Syncing), false), Idle], [], map[],
                 [Driver(KeyOf(p), true, None)], map[KeyOf(p) := 0], []);
    hide Exec;
    steps := Then(2, steps, Go(0, Acquire), family, mayRaise);
    assert Exec(Start(2), steps)
        == State([Working(Work(p, 0, Syncing), false), Idle], [], map[LockOf(p) := Awaited(0)],
                 [Driver(KeyOf(p), true, None)], map[KeyOf(p) := 0], []);
    hide Moved;
    steps := Then(2, steps, Act(Awaited(0), Sync(false, None)), family, mayRaise);
  }

  /** Another request on the same driver gets another lock. */
  lemma OtherGetsLock(p: Request, q: Request, family: iset<Request>, mayRaise: bool) returns (steps: seq<Step>)
    requires p in family && q in family && p.Invoke? && q.Invoke? && KeyOf(p) == KeyOf(q)
    requires Named(p).Some? && LockOf(p) != LockOf(q)
    ensures AskedIn(steps, family, mayRaise)
    ensures Exec(Start(2), steps)
         == State([Working(Work(p, 0, Synced(false)), false), Working(Work(q, 0, Syncing), false)], [],
                  map[LockOf(p) := Awaited(0), LockOf(q) := Awaited(1)],
                  [Driver(KeyOf(p), true, Named(p))], map[KeyOf(p) := 0], [])
  {
    steps := SetsItsChannel(p, family, mayRaise);
    steps := GetsToQueue(2, steps, family, 1, q, (true, None), mayRaise);
    hide Exec, AskedIn, KeyOf, LockOf, Named;
    assert Exec(Start(2), steps)
        == State([Working(Work(p, 0, Synced(false)), false), Queuing(Work(q, 0, Syncing), false)], [],
                 map[LockOf(p) := Awaited(0)], [Driver(KeyOf(p), true, Named(p))], map[KeyOf(p) := 0], []);
    steps := Then(2, steps, Go(1, Acquire), family, mayRaise);
  }

  /** It sets the driver's channel and runs. */
  lemma OtherComes(p: Request, q: Request, family: iset<Request>, mayRaise: bool) returns (steps: seq<Step>)
    requires p in family && q in family && p.Invoke? && q.Invoke? && KeyOf(p) == KeyOf(q)
    requires Named(p).Some? && LockOf(p) != LockOf(q)
    ensures AskedIn(steps, family, mayRaise)
    ensures var s := Exec(Start(2), steps);
            && s.threads == [Working(Work(p, 0, Synced(false)), false), Working(Work(q, 0, Running), false)]
            && |s.drivers| == 1 && s.drivers[0].(channel := None) == Driver(KeyOf(p), true, None)
  {
    steps := OtherGetsLock(p, q, family, mayRaise);
    hide Exec, Moved, AskedIn, KeyOf, LockOf, Named;
    var mine := Working(Work(p, 0, Synced(false)), false);
    steps := Then(2, steps, Act(Awaited(1), Sync(false, None)), family, mayRaise);
    assert Exec(Start(2), steps).threads == [mine, Working(Work(q, 0, Synced(false)), false)];
    steps := Then(2, steps, Act(Awaited(1), Call), family, mayRaise);
    assert Exec(Start(2), steps).threads == [mine, Working(Work(q, 0, Running), false)];
  }

  /** It comes and goes, and leaves the driver on no channel. */
  lemma OtherComesAndGoes(p: Request, q: Request, family: iset<Request>, mayRaise: bool) returns (steps: seq<Step>)
    requires p in family && q in family && p.Invoke? && q.Invoke? && KeyOf(p) == KeyOf(q)
    requires Named(p).Some? && LockOf(p) != LockOf(q)
    ensures AskedIn(steps, family, mayRaise)
    ensures var s := Exec(Start(2), steps);
            && |s.threads| == 2 && s.threads[0] == Working(Work(p, 0, Synced(false)), false)
            && s.drivers == [Driver(KeyOf(p), true, None)]
  {
    steps := OtherComes(p, q, family, mayRaise);
    hide Exec, Moved, AskedIn, KeyOf, LockOf, Named;
    steps := Then(2, steps, Act(Awaited(1), Return(None)), family, mayRaise);
  }

  /** Without agreement, a call may run on a channel that another request left. */
  lemma OthersRepoint(p: Request, q: Request, family: iset<Request>, mayRaise: bool) returns (steps: seq<Step>)
    requires p in family && q in family && p.Invoke? && q.Invoke? && KeyOf(p) == KeyOf(q)
    requires Named(p).Some? && LockOf(p) != LockOf(q)
    ensures AskedIn(steps, family, mayRaise) && !AllOnChannel(Exec(Start(2), steps))
  {
    steps := OtherComesAndGoes(p, q, family, mayRaise);
    var s := Exec(Start(2), steps);
    hide AskedIn, KeyOf, LockOf, Named;
    steps := Then(2, steps, Act(Awaited(0), Call), family, mayRaise);
    assert Exec(Start(2), steps).ran[|s.ran|] == Ran(Work(p, 0, Synced(false)), s.drivers[0]);
  }

  /** A channel that could not be set is passed over: the call runs on whatever channel that left. */
  lemma CallsWithoutItsChannel(p: Request, left: Option<string>, family: iset<Request>) returns (steps: seq<Step>)
    requires p in family && p.Invoke? && left != Named(p) && Named(p).Some?
    ensures AskedIn(steps, family, true)
    ensures var ran := Exec(Start(1), steps).ran;
            |ran| == 1 && ran[0].work.request == p && ran[0].driver.repointable && ran[0].driver.channel != Named(p)
  {
    var mayRaise := true;
    steps := GetsToQueue(1, [], family, 0, p, (true, None), mayRaise);
    hide AskedIn, KeyOf, LockOf, Named;
    steps := Then(1, steps, Go(0, Acquire), family, mayRaise);
    steps := Then(1, steps, Act(Awaited(0), Sync(true, left)), family, mayRaise);
    assert Exec(Start(1), steps).threads == [Working(Work(p, 0, Synced(true)), false)];
    steps := Then(1, steps, Act(Awaited(0), Call), family, mayRaise);
  }

  lemma UnraisedIsOnChannel(s: State)
    requires RanOnChannel(s) && Unraised(s)
    ensures AllOnChannel(s)
  {
  }

  ghost predicate NamesNone(family: iset<Request>) {
    forall p <- family :: p.Invoke? ==> Named(p).None?
  }

  /**
    Exactly when requests that share a driver share its lock, and setting a
    channel that is named does not fail, does every call run on its channel.
  */
  lemma AgreementIsNeeded(family: iset<Request>, mayRaise: bool)
    ensures Agree(family) && (mayRaise ==> NamesNone(family)) <==>
              forall n: nat, steps :: AskedIn(steps, family, mayRaise) ==> AllOnChannel(Exec(Start(n), steps))
  {
    if !Agree(family) {
      var p, q :| p in family && q in family && p.Invoke? && q.Invoke? && KeyOf(p) == KeyOf(q) && Named(p).Some?
                  && LockOf(p) != LockOf(q);
      var steps := OthersRepoint(p, q, family, mayRaise);
      assert !AllOnChannel(Exec(Start(2), steps));
    } else if mayRaise && !NamesNone(family) {
      var p :| p in family && p.Invoke? && Named(p).Some?;
      var steps := CallsWithoutItsChannel(p, None, family);
      assert !AllOnChannel(Exec(Start(1), steps));
    } else {
      forall n: nat, steps | AskedIn(steps, family, mayRaise)
        ensures AllOnChannel(Exec(Start(n), steps))
      {
        if mayRaise {
          ExecKeepsRanIn(n, steps, family);
        } else {
          ExecKeepsChannels(n, steps, family, false);
          ExecKeepsUnraised(n, steps, family);
          UnraisedIsOnChannel(Exec(Start(n), steps));
        }
      }
    }
  }
}
