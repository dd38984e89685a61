/**
  Runs of the atomic lock server: what a lease promises although stamps are cut
  to whole seconds, what can take a lock away from its holder, and why reaping
  at the next read cannot be told from dropping a lock the instant it expires.
*/
module LockRuns {
  import opened Options
  import opened LockState

  // -------------------------------------------------------------------------
  // Leases against the full-resolution clock
  // -------------------------------------------------------------------------

  /** A record whose lease of `ttl` seconds was stamped at time `h`. */
  predicate StampedAt(lock: Lock, h: int, ttl: int) {
    LeaseStart(lock) == Some(StampOf(h)) && lock.ttl == Some(ttl)
  }

  /** A lease counts from the last heartbeat, or in an older record from the acquire; what does not parse never expires. */
  lemma ExpiredIff(lock: Lock, now: int)
    ensures Expired(lock, now) <==>
              lock.ttl.Some? && exists sec ::
                (lock.lastHeartbeat == Some(At(sec)) || (lock.lastHeartbeat == None && lock.lockedAt == Some(At(sec))))
                && now > (sec + lock.ttl.value) * 1_000_000
  {
  }

  /** The exact instant a lease ends: up to a second before `h + ttl`. */
  lemma LeaseEnd(lock: Lock, h: int, ttl: int, t: int)
    requires StampedAt(lock, h, ttl)
    ensures Expired(lock, t) <==> t - h > ttl * SECOND - h % SECOND
    ensures t - h <= (ttl - 1) * SECOND ==> !Expired(lock, t)
    ensures t - h > ttl * SECOND ==> Expired(lock, t)
  {
    assert h == h / SECOND * SECOND + h % SECOND;
  }

  /** A gap between renewals is safe wherever in a second they fall, exactly up to this bound. */
  ghost predicate SafeGap(ttl: int, gap: int) {
    forall lock: Lock, h: int :: StampedAt(lock, h, ttl) ==> !Expired(lock, h + gap)
  }

  lemma SafeGapIff(ttl: int, gap: int)
    ensures SafeGap(ttl, gap) <==> gap <= (ttl - 1) * SECOND + 1
  {
    if gap <= (ttl - 1) * SECOND + 1 {
      forall lock: Lock, h: int | StampedAt(lock, h, ttl)
        ensures !Expired(lock, h + gap)
      {
        LeaseEnd(lock, h, ttl, h + gap);
      }
    } else {
      var h := SECOND - 1;
      var lock := Lock("u", None, None, Some(StampOf(h)), Some(ttl));
      assert StampedAt(lock, h, ttl);
      LeaseEnd(lock, h, ttl, h + gap);
    }
  }

  lemma ExpiryIsFinal(lock: Lock, t: int, later: int)
    requires t <= later
    ensures Expired(lock, t) ==> Expired(lock, later)
  {
  }

  // -------------------------------------------------------------------------
  // Runs
  // -------------------------------------------------------------------------

  datatype Event = Event(op: Op, readAt: int, writeAt: int)

  function Perform(event: Event, record: Option<Lock>): Outcome {
    Apply(event.op, record, event.readAt, event.writeAt)
  }

  function RecordAfter(initial: Option<Lock>, events: seq<Event>): Option<Lock> {
    if events == [] then initial
    else
      var last := |events| - 1;
      Perform(events[last], RecordAfter(initial, events[..last])).record
  }

  function ReplyAt(initial: Option<Lock>, events: seq<Event>, i: nat): Reply
    requires i < |events|
  {
    Perform(events[i], RecordAfter(initial, events[..i])).reply
  }

  // -------------------------------------------------------------------------
  // What can take a lock away
  // -------------------------------------------------------------------------

  /** The two ways an operation ends a hold: the lease had run out, or it is a release that counts. */
  predicate Ends(event: Event, lock: Lock) {
    && !Malformed(event.op)
    && (Expired(lock, event.readAt) || (event.op.Release? && (event.op.user == lock.user || event.op.force)))
  }

  /** The same hold: one user, from one acquire. */
  predicate SameHold(record: Option<Lock>, lock: Lock) {
    record.Some? && record.value.user == lock.user && record.value.lockedAt == lock.lockedAt
  }

  lemma HoldEndsOnlyForCause(event: Event, lock: Lock)
    ensures Ends(event, lock) ==>
              var after := Perform(event, Some(lock)).record;
              after.None? || (event.op.Acquire? && Expired(lock, event.readAt) && after.value.user == event.op.user)
    ensures !Ends(event, lock) ==> SameHold(Perform(event, Some(lock)).record, lock)
    ensures !Ends(event, lock) && lock.holderType != Some("ephemeral") && lock.holderType != Some("ci") ==>
              && Perform(event, Some(lock)).record.value.holderType == lock.holderType
              && Perform(event, Some(lock)).record.value.ttl == lock.ttl
  {
  }

  /** Over a whole run a hold is lost only at an operation that ends it. */
  lemma {:induction false} HoldSurvives(lock: Lock, events: seq<Event>)
    ensures SameHold(RecordAfter(Some(lock), events), lock)
            || exists i: nat :: i < |events| &&
                 SameHold(RecordAfter(Some(lock), events[..i]), lock) &&
                 Ends(events[i], RecordAfter(Some(lock), events[..i]).value)
  {
    if events != [] {
      var n := |events| - 1;
      HoldSurvives(lock, events[..n]);
      var before := RecordAfter(Some(lock), events[..n]);
      if SameHold(before, lock) {
        HoldEndsOnlyForCause(events[n], before.value);
      } else {
        var i: nat :| i < n && SameHold(RecordAfter(Some(lock), events[..n][..i]), lock)
                      && Ends(events[..n][i], RecordAfter(Some(lock), events[..n][..i]).value);
        assert events[..n][..i] == events[..i];
        assert events[..n][i] == events[i];
      }
    }
  }

  /** A reservation: no lease, and any classification but the two that commands give their own locks. */
  predicate Reservation(lock: Lock) {
    lock.ttl.None? && lock.holderType != Some("ephemeral") && lock.holderType != Some("ci")
  }

  predicate SameReservation(record: Option<Lock>, lock: Lock) {
    && SameHold(record, lock)
    && record.value.holderType == lock.holderType
    && record.value.ttl == lock.ttl
  }

  /** Only a release by its own user, or a forced one, ends a reservation. */
  lemma {:induction false} ReservationSurvives(lock: Lock, events: seq<Event>)
    requires Reservation(lock)
    requires forall e :: e in events && e.op.Release? ==> e.op.user != lock.user && !e.op.force
    ensures SameReservation(RecordAfter(Some(lock), events), lock)
  {
    if events != [] {
      var n := |events| - 1;
      ReservationSurvives(lock, events[..n]);
      assert events[n] in events;
      HoldEndsOnlyForCause(events[n], RecordAfter(Some(lock), events[..n]).value);
    }
  }

  // -------------------------------------------------------------------------
  // What an acquire asks for, and how long it has it
  // -------------------------------------------------------------------------

  /** The classification and lease that a payload stands for. */
  ghost predicate AsksFor(holder: HolderArg, ttl: TtlArg, kind: string, lease: Option<int>) {
    && (holder.HolderAbsent? && ttl.TtlAbsent? ==> kind == "user" && lease == None)
    && (!(holder.HolderAbsent? && ttl.TtlAbsent?) ==>
          && (holder.HolderText? && holder.text != "" ==> kind == holder.text)
          && (!holder.HolderText? || holder.text == "" ==> kind == "ephemeral")
          && (ttl.TtlAbsent? && kind == "user" ==> lease == None)
          && (ttl.TtlAbsent? && kind != "user" ==> lease == Some(1800)))
    && (ttl.TtlNull? ==> lease == None)
    && (ttl.TtlIntegral? && ttl.n >= 1 ==> lease == Some(ttl.n))
    && (ttl.TtlIntegral? && ttl.n < 1 ==> lease == Some(1))
    && (ttl.TtlGarbage? ==> lease == Some(1800))
  }

  /** An acquire that is not turned away. */
  predicate ProperAcquire(op: Op) {
    op.Acquire? && op.user != "" && !op.ttl.TtlInfinite?
  }

  /**
    A command's own lock, that its user acquires again, takes the classification
    and the lease that the payload asks for, and keeps the time of its acquire.
  */
  lemma AutoLockIsRewritten(lock: Lock, event: Event) returns (kind: string, lease: Option<int>)
    requires ProperAcquire(event.op) && event.op.user == lock.user && !Expired(lock, event.readAt)
    requires lock.holderType == Some("ephemeral") || lock.holderType == Some("ci")
    ensures AsksFor(event.op.holder, event.op.ttl, kind, lease)
    ensures var renewed := Lock(lock.user, Some(kind), lock.lockedAt, Some(At(event.writeAt / SECOND)), lease);
            Perform(event, Some(lock)) == Outcome(Granted(renewed, Some(lock.user)), Some(renewed))
  {
    kind, lease := Requested(event.op.holder, event.op.ttl).0, Requested(event.op.holder, event.op.ttl).1;
  }

  /** Requests that leave another's lock alone: looks, and what other users ask without force. */
  ghost predicate OthersOnly(events: seq<Event>, user: string) {
    forall e :: e in events ==> e.op.Status? || (e.op.user != user && (e.op.Release? ==> !e.op.force))
  }

  /** How a live lock answers someone who is not its user. */
  ghost predicate TurnsAway(event: Event, lock: Lock, outcome: Outcome) {
    && outcome.record == Some(lock)
    && (event.op.Status? ==> outcome.reply == Shown(lock))
    && (ProperAcquire(event.op) ==> outcome.reply == Conflict(lock))
    && (event.op.Heartbeat? && event.op.user != "" ==> outcome.reply == Refused(lock))
    && (event.op.Release? && event.op.user != "" ==> outcome.reply == Refused(lock))
    && (!event.op.Status? && event.op.user == "" ==> outcome.reply == BadRequest)
    && (event.op.Acquire? && event.op.user != "" && event.op.ttl.TtlInfinite? ==> outcome.reply == ServerError)
  }

  /** The lock that an acquire makes of a free box. */
  ghost predicate Makes(event: Event, lock: Lock) {
    && event.op.Acquire?
    && lock.user == event.op.user
    && lock.lockedAt == lock.lastHeartbeat == Some(At(event.writeAt / SECOND))
    && lock.holderType.Some?
    && AsksFor(event.op.holder, event.op.ttl, lock.holderType.value, lock.ttl)
  }

  lemma FreeBoxIsGranted(record: Option<Lock>, event: Event, lock: Lock)
    requires ProperAcquire(event.op) && (record.Some? ==> Expired(record.value, event.readAt))
    ensures Makes(event, lock) <==> Perform(event, record) == Outcome(Granted(lock, None), Some(lock))
  {
  }

  /**
    A lock that is made on a free box answers everyone else, whatever they ask
    and however often, until a second before its lease is over: looks show it,
    acquires conflict, heartbeats and releases are refused, and it stays as it is.
  */
  lemma HeldForItsLease(record: Option<Lock>, acquire: Event, lock: Lock, events: seq<Event>, last: Event)
    requires ProperAcquire(acquire.op) && (record.Some? ==> Expired(record.value, acquire.readAt))
    requires Makes(acquire, lock) && OthersOnly(events + [last], lock.user)
    requires lock.ttl.Some? ==>
               forall e :: e in events + [last] ==> e.readAt - acquire.writeAt <= (lock.ttl.value - 1) * SECOND
    ensures ReplyAt(record, [acquire] + events, 0) == Granted(lock, None)
    ensures TurnsAway(last, lock, Perform(last, RecordAfter(record, [acquire] + events)))
  {
    FreeBoxIsGranted(record, acquire, lock);
    assert ([acquire] + events)[..0] == [];
    assert forall e :: e in events ==> e in events + [last];
    StandsAlone(record, acquire, lock, events);
    assert last in events + [last];
    OtherIsTurnedAway(lock, acquire.writeAt, last);
  }

  lemma OtherIsTurnedAway(lock: Lock, stamped: int, event: Event)
    requires lock.lastHeartbeat == Some(At(stamped / SECOND))
    requires lock.ttl.Some? ==> event.readAt - stamped <= (lock.ttl.value - 1) * SECOND
    requires OthersOnly([event], lock.user)
    ensures TurnsAway(event, lock, Perform(event, Some(lock)))
  {
    assert event in [event];
    if lock.ttl.Some? {
      LeaseEnd(lock, stamped, lock.ttl.value, event.readAt);
    }
  }

  lemma {:induction false} StandsAlone(record: Option<Lock>, acquire: Event, lock: Lock, events: seq<Event>)
    requires Makes(acquire, lock) && Perform(acquire, record).record == Some(lock)
    requires OthersOnly(events, lock.user)
    requires lock.ttl.Some? ==> forall e :: e in events ==> e.readAt - acquire.writeAt <= (lock.ttl.value - 1) * SECOND
    ensures RecordAfter(record, [acquire] + events) == Some(lock)
  {
    if events == [] {
      assert ([acquire] + events)[..0] == [];
    } else {
      var n := |events| - 1;
      assert ([acquire] + events)[..n + 1] == [acquire] + events[..n];
      StandsAlone(record, acquire, lock, events[..n]);
      assert events[n] in events;
      OtherIsTurnedAway(lock, acquire.writeAt, events[n]);
    }
  }

  /** Once its lease is over, it is as if it had never been made: for its own user, too. */
  lemma GoneAfterItsLease(lock: Lock, acquire: Event, event: Event)
    requires ProperAcquire(acquire.op) && Makes(acquire, lock) && lock.ttl.Some?
    requires event.readAt - acquire.writeAt > lock.ttl.value * SECOND
    ensures var outcome := Perform(event, Some(lock));
            && (event.op.Status? ==> outcome == Outcome(Unheld, None))
            && (ProperAcquire(event.op) ==> exists made: Lock :: Makes(event, made) && outcome == Outcome(Granted(made, None), Some(made)))
            && (event.op.Heartbeat? && event.op.user != "" ==> outcome == Outcome(NothingHeld, None))
            && (event.op.Release? && event.op.user != "" ==> outcome == Outcome(AlreadyUnlocked, None))
  {
    LeaseEnd(lock, acquire.writeAt, lock.ttl.value, event.readAt);
    if ProperAcquire(event.op) {
      FreeBoxIsGranted(Some(lock), event, Perform(event, Some(lock)).record.value);
    }
  }

  /** Its own user renews it, releases it, and acquires it again. */
  lemma OwnUserIsServed(lock: Lock, event: Event)
    requires !Expired(lock, event.readAt) && !event.op.Status? && event.op.user == lock.user != ""
    ensures var outcome := Perform(event, Some(lock));
            && (event.op.Heartbeat? ==>
                  var renewed := lock.(lastHeartbeat := Some(At(event.writeAt / SECOND)));
                  outcome == Outcome(Renewed(renewed), Some(renewed)))
            && (event.op.Release? ==> outcome == Outcome(Unlocked, None))
            && (ProperAcquire(event.op) && lock.holderType != Some("ephemeral") && lock.holderType != Some("ci") ==>
                  var renewed := lock.(lastHeartbeat := Some(At(event.writeAt / SECOND)));
                  outcome == Outcome(Granted(renewed, Some(lock.user)), Some(renewed)))
  {
  }

  // -------------------------------------------------------------------------
  // Lazy reaping refines eager expiry
  // -------------------------------------------------------------------------

  /** A schedule: operations, and instants at which an eager server's timer may run. */
  datatype Item = Tick(now: int) | Do(event: Event)

  function Begins(item: Item): int {
    match item case Tick(now) => now case Do(event) => event.readAt
  }

  function Finishes(item: Item): int {
    match item case Tick(now) => now case Do(event) => event.writeAt
  }

  /** The clock never runs backwards. */
  ghost predicate Timed(items: seq<Item>) {
    && (forall i :: 0 <= i < |items| ==> Begins(items[i]) <= Finishes(items[i]))
    && (forall i, j :: 0 <= i < j < |items| ==> Finishes(items[i]) <= Begins(items[j]))
  }

  /** The eager server keeps a timer beside the record and never tests for expiry itself. */
  datatype Eager = Eager(record: Option<Lock>, deadline: Option<int>)

  /** The last instant at which the record still counts. */
  function Deadline(record: Option<Lock>): Option<int> {
    if record.Some? && record.value.ttl.Some? && LeaseStart(record.value).Some? && LeaseStart(record.value).value.At?
    then Some((LeaseStart(record.value).value.sec + record.value.ttl.value) * SECOND)
    else None
  }

  function Armed(record: Option<Lock>): Eager {
    Eager(record, Deadline(record))
  }

  function Fire(server: Eager, now: int): Eager {
    if server.deadline.Some? && now > server.deadline.value then Eager(None, None) else server
  }

  function EagerOutcome(server: Eager, event: Event): Outcome {
    ApplyLive(event.op, Fire(server, event.readAt).record, event.writeAt)
  }

  function EagerStep(server: Eager, item: Item): Eager {
    match item
    case Tick(now) => Fire(server, now)
    case Do(event) => Armed(EagerOutcome(server, event).record)
  }

  function EagerAfter(initial: Option<Lock>, items: seq<Item>): Eager {
    if items == [] then Armed(initial)
    else EagerStep(EagerAfter(initial, items[..|items| - 1]), items[|items| - 1])
  }

  /** The lazy server does nothing at a tick. */
  function LazyAfter(initial: Option<Lock>, items: seq<Item>): Option<Lock> {
    if items == [] then initial
    else
      var before := LazyAfter(initial, items[..|items| - 1]);
      match items[|items| - 1]
      case Tick(_) => before
      case Do(event) => Perform(event, before).record
  }

  /** The two hold the same record, but for one that has expired by `now`. */
  predicate Agree(lazy: Option<Lock>, eager: Eager, now: int) {
    && eager.deadline == Deadline(eager.record)
    && (lazy == eager.record || (eager.record.None? && lazy.Some? && Expired(lazy.value, now)))
  }

  lemma TimerMatchesTest(lazy: Option<Lock>, eager: Eager, now: int, later: int)
    requires Agree(lazy, eager, now) && now <= later
    ensures Fire(eager, later).record == Live(lazy, later)
    ensures Agree(lazy, Fire(eager, later), later)
  {
    if lazy.Some? {
      ExpiryIsFinal(lazy.value, now, later);
    }
  }

  lemma {:induction false} ServersAgree(initial: Option<Lock>, items: seq<Item>, now: int)
    requires Timed(items)
    requires forall i :: 0 <= i < |items| ==> Finishes(items[i]) <= now
    ensures Agree(LazyAfter(initial, items), EagerAfter(initial, items), now)
  {
    if items != [] {
      var n := |items| - 1;
      var start := Begins(items[n]);
      ServersAgree(initial, items[..n], start);
      var lazy, eager := LazyAfter(initial, items[..n]), EagerAfter(initial, items[..n]);
      TimerMatchesTest(lazy, eager, start, start);
      match items[n] {
        case Tick(t) =>
          assert Agree(lazy, Fire(eager, t), t);
        case Do(event) =>
          assert EagerOutcome(eager, event).reply == Perform(event, lazy).reply;
      }
      var after := LazyAfter(initial, items);
      if after.Some? {
        ExpiryIsFinal(after.value, start, now);
      }
    }
  }

  /** However the timer is scheduled, every reply of the eager server is the lazy server's. */
  lemma LazyRefinesEager(initial: Option<Lock>, items: seq<Item>, i: nat)
    requires Timed(items) && i < |items| && items[i].Do?
    ensures Perform(items[i].event, LazyAfter(initial, items[..i])).reply
         == EagerOutcome(EagerAfter(initial, items[..i]), items[i].event).reply
  {
    ServersAgree(initial, items[..i], items[i].event.readAt);
    TimerMatchesTest(LazyAfter(initial, items[..i]), EagerAfter(initial, items[..i]),
                     items[i].event.readAt, items[i].event.readAt);
  }
}
