/**
  Any number of auto-locked commands against one box.

  Each command looks at the lock, posts acquires until it is answered or gives
  up, runs its body while a heartbeat renews the lease, and posts one release,
  perhaps several times.  A message may be lost, answered without the client
  hearing it, or delivered after its sender has stopped waiting.  Between the
  commands, users outside them may lock, renew and unlock for themselves.
*/
module LockClients {
  import opened Options
  import opened LockState
  import opened LockRuns
  import opened HolderRule

  /** What a command locks with.  `user` is the plain user name behind the holder. */
  datatype Command = Command(holder: string, user: string, kind: string, ttl: Option<int>)

  /** How a command came to run its body. */
  datatype Hold =
    | Acquired                                 // its own acquire made the lock
    | AlreadyOurs(stored: string, leased: bool)
    | Unreachable

  datatype Phase =
    | NotStarted
    | Asking                                   // an acquire is on its way
    | Told(reply: Reply)                       // the box has answered; the answer is on its way
    | Working(hold: Hold)                      // in the body
    | Dissolved                                // in the body, having removed the lock server
    | Ending                                   // the body is over
    | Gone

  /**
    A command in progress.  `straggler`: an acquire it gave up on may still be
    delivered.  `beats`: it has sent heartbeats under that holder.  `releases`:
    it has posted its release.  `created`: one of its own acquires made a lock.
    `lease`: when the box last renewed a lock under its holder.
  */
  datatype Client = Client(
    phase: Phase, straggler: bool, beats: Option<string>, releases: bool, created: bool, lease: int)

  datatype State = State(record: Option<Lock>, clock: int, clients: seq<Client>)

  /** What the box can be handed on a command's behalf. */
  datatype Message =
    | Look(answered: bool)       // the check before the acquire; its answer may be lost
    | Ask                        // an acquire that is waited for
    | LateAsk                    // an acquire that was given up on
    | Beat
    | LetGo

  /** What a command does by itself. */
  datatype Act =
    | GiveUp                     // no answer: carry on without a lock
    | Hear(patient: bool)        // the answer arrives
    | SendBeat
    | Dissolve
    | Finish                     // the body ends, by any of its ways out
    | Depart                     // the process ends, in order or not

  datatype Step =
    | Wait(now: int)
    | Foreign(op: Op, later: int)
    | Deliver(i: nat, message: Message, later: int)
    | Take(i: nat, act: Act)

  function AskFor(c: Command): Op {
    Acquire(c.holder, HolderText(c.kind), if c.ttl.None? then TtlNull else TtlIntegral(c.ttl.value))
  }

  /** The lease that the box gives the command. */
  function LeaseOf(c: Command): Option<int> {
    if c.ttl.None? then None else Some(if c.ttl.value < 1 then 1 else c.ttl.value)
  }

  predicate IsOurs(c: Command, stored: string) {
    HolderIsOurs(stored, c.holder, c.user, true)
  }

  /** The command whose own acquire made the lock, from then until its body is over. */
  predicate Holding(client: Client) {
    || client.phase == Working(Acquired)
    || (client.phase.Told? && client.phase.reply.Granted? && client.phase.reply.previous.None?)
  }

  /** The state a command takes up when its answer arrives. */
  function Heard(c: Command, reply: Reply, patient: bool): Phase {
    match reply
    case Granted(lock, previous) =>
      if previous.None? || !IsOurs(c, previous.value) then Working(Acquired)
      else Working(AlreadyOurs(lock.user, lock.ttl.Some?))
    case Conflict(lock) =>
      if IsOurs(c, lock.user) then Working(AlreadyOurs(lock.user, lock.ttl.Some?))
      else if patient then Asking
      else Gone
    case _ => Gone
  }

  /** The holder that the command's heartbeats carry, when it sends any. */
  function BeatHolder(c: Command, hold: Hold): Option<string> {
    match hold
    case Acquired => if c.ttl.None? then None else Some(c.holder)
    case AlreadyOurs(stored, leased) => if !leased then None else Some(if stored == "" then c.holder else stored)
    case Unreachable => None
  }

  /** Time may pass as long as no held lock goes unrenewed for more than its lease less a second. */
  ghost predicate Renewing(commands: seq<Command>, s: State, now: int)
    requires |s.clients| == |commands|
  {
    forall i :: 0 <= i < |commands| && Holding(s.clients[i]) && LeaseOf(commands[i]).Some? ==>
      now - s.clients[i].lease <= (LeaseOf(commands[i]).value - 1) * SECOND
  }

  /** The users outside the commands act for themselves, and force nothing. */
  ghost predicate Foreigner(commands: seq<Command>, op: Op) {
    && (op.Release? ==> !op.force)
    && (!op.Status? ==> forall i :: 0 <= i < |commands| ==> commands[i].holder != op.user)
  }

  predicate Sent(client: Client, message: Message) {
    match message
    case Look(_) => client.phase.NotStarted?
    case Ask => client.phase.Asking?
    case LateAsk => client.straggler
    case Beat => client.beats.Some?
    case LetGo => client.releases
  }

  predicate CanTake(c: Command, client: Client, act: Act) {
    match act
    case GiveUp => client.phase.Asking? || client.phase.Told?
    case Hear(_) => client.phase.Told?
    case SendBeat => client.phase.Working? && BeatHolder(c, client.phase.hold).Some?
    case Dissolve => client.phase.Working?
    case Finish => client.phase.Working? || client.phase.Dissolved?
    case Depart => true
  }

  ghost predicate Enabled(commands: seq<Command>, s: State, step: Step)
    requires |s.clients| == |commands|
  {
    match step
    case Wait(now) => s.clock <= now && Renewing(commands, s, now)
    case Foreign(op, later) => s.clock <= later && Renewing(commands, s, later) && Foreigner(commands, op)
    case Deliver(i, message, later) =>
      i < |commands| && s.clock <= later && Renewing(commands, s, later) && Sent(s.clients[i], message)
    case Take(i, act) => i < |commands| && CanTake(commands[i], s.clients[i], act)
  }

  /** The request a message carries. */
  function Request(c: Command, client: Client, message: Message): Op
    requires Sent(client, message)
  {
    match message
    case Look(_) => Status
    case Ask => AskFor(c)
    case LateAsk => AskFor(c)
    case Beat => Heartbeat(client.beats.value)
    case LetGo => Release(c.holder, false)
  }

  /** What the box's reply to a message means for its sender. */
  function Replied(c: Command, client: Client, message: Message, reply: Reply): Client {
    match message
    case Look(answered) =>
      client.(phase :=
        if answered && reply.Shown? && IsOurs(c, reply.lock.user)
        then Working(AlreadyOurs(reply.lock.user, reply.lock.ttl.Some?))
        else Asking)
    case Ask => client.(phase := Told(reply), created := client.created || Creates(reply))
    case LateAsk => client.(created := client.created || Creates(reply))
    case Beat => client
    case LetGo => client
  }

  function Acted(c: Command, client: Client, act: Act): Client
    requires CanTake(c, client, act)
  {
    match act
    case GiveUp => client.(phase := Working(Unreachable), straggler := client.straggler || client.phase.Asking?)
    case Hear(patient) => client.(phase := Heard(c, client.phase.reply, patient))
    case SendBeat => client.(beats := BeatHolder(c, client.phase.hold))
    case Dissolve => client.(phase := Dissolved)
    case Finish => client.(phase := Ending, releases := client.releases || client.phase == Working(Acquired))
    case Depart => client.(phase := Gone)
  }

  /** A lock renewed under a holder is renewed for every command with that holder. */
  function Renew(clients: seq<Client>, commands: seq<Command>, holder: string, now: int): (r: seq<Client>)
    requires |clients| == |commands|
    ensures |r| == |clients|
  {
    seq(|clients|, j requires 0 <= j < |clients| =>
      if commands[j].holder == holder then clients[j].(lease := now) else clients[j])
  }

  /** The box handles one request. */
  function Handle(commands: seq<Command>, s: State, op: Op, later: int): (r: State)
    requires |s.clients| == |commands|
    ensures |r.clients| == |commands|
  {
    var outcome := Apply(op, s.record, s.clock, later);
    State(outcome.record, later,
          if outcome.reply.Granted? || outcome.reply.Renewed?
          then Renew(s.clients, commands, op.user, later)
          else s.clients)
  }

  function Put(s: State, i: nat, client: Client): (r: State)
    requires i < |s.clients|
    ensures |r.clients| == |s.clients|
  {
    s.(clients := s.clients[i := client])
  }

  predicate Creates(reply: Reply) {
    reply.Granted? && reply.previous.None?
  }

  /** A step that is not enabled changes nothing. */
  ghost function Next(commands: seq<Command>, s: State, step: Step): (r: State)
    requires |s.clients| == |commands|
    ensures |r.clients| == |commands|
  {
    if !Enabled(commands, s, step) then s
    else
      match step
      case Wait(now) => s.(clock := now)
      case Foreign(op, later) => Handle(commands, s, op, later)
      case Deliver(i, message, later) =>
        var op := Request(commands[i], s.clients[i], message);
        var after := Handle(commands, s, op, later);
        Put(after, i, Replied(commands[i], after.clients[i], message, Apply(op, s.record, s.clock, later).reply))
      case Take(i, act) => Put(s, i, Acted(commands[i], s.clients[i], act))
  }

  function Start(record: Option<Lock>, clock: int, commands: seq<Command>): (s: State)
    ensures |s.clients| == |commands|
  {
    State(record, clock, seq(|commands|, _ => Client(NotStarted, false, None, false, false, clock)))
  }

  ghost function Exec(commands: seq<Command>, s: State, steps: seq<Step>): (r: State)
    requires |s.clients| == |commands|
    ensures |r.clients| == |commands|
  {
    if steps == [] then s
    else Next(commands, Exec(commands, s, steps[..|steps| - 1]), steps[|steps| - 1])
  }

  // -------------------------------------------------------------------------
  // Mutual exclusion
  // -------------------------------------------------------------------------

  ghost predicate DistinctHolders(commands: seq<Command>) {
    forall i, j :: 0 <= i < j < |commands| ==> commands[i].holder != commands[j].holder
  }

  /** The record is this command's: its holder, its lease, stamped when the box last renewed it. */
  predicate Names(record: Option<Lock>, c: Command, lease: int) {
    && record.Some?
    && record.value.user == c.holder
    && record.value.ttl == LeaseOf(c)
    && record.value.lastHeartbeat == Some(StampOf(lease))
  }

  /** A grant names a previous holder only when it is the one that asked. */
  predicate OwnPrevious(c: Command, reply: Reply) {
    reply.Granted? && reply.previous.Some? ==> reply.previous.value == c.holder && c.holder != ""
  }

  ghost predicate ClientInv(c: Command, client: Client, record: Option<Lock>, clock: int) {
    && (Holding(client) ==>
          && Names(record, c, client.lease)
          && client.lease <= clock
          && (LeaseOf(c).Some? ==> clock - client.lease <= (LeaseOf(c).value - 1) * SECOND)
          && !client.releases
          && !client.straggler)
    && (client.phase.Told? ==> OwnPrevious(c, client.phase.reply))
    && (client.releases ==> client.phase.Ending? || client.phase.Gone?)
    && (client.straggler ==> !client.phase.Asking? && !client.phase.Told?)
    && (client.phase.NotStarted? || client.phase.Asking? ==> !client.straggler)
  }

  ghost predicate Inv(commands: seq<Command>, s: State)
    requires |s.clients| == |commands|
  {
    forall i :: 0 <= i < |commands| ==> ClientInv(commands[i], s.clients[i], s.record, s.clock)
  }

  /**
    One request handled by the box, when the clients that hold the lock still
    have it: they go on having it, unless the request is a release by one of them.
  */
  lemma HandleKeepsInv(commands: seq<Command>, s: State, op: Op, later: int)
    requires |s.clients| == |commands| && DistinctHolders(commands) && Inv(commands, s)
    requires s.clock <= later && Renewing(commands, s, later)
    requires op.Release? ==> !op.force && forall i :: 0 <= i < |commands| && Holding(s.clients[i]) ==> commands[i].holder != op.user
    requires op.Acquire? ==> forall i :: 0 <= i < |commands| && Holding(s.clients[i]) ==> commands[i].holder != op.user
    ensures Inv(commands, Handle(commands, s, op, later))
  {
    var after := Handle(commands, s, op, later);
    forall i | 0 <= i < |commands| ensures ClientInv(commands[i], after.clients[i], after.record, after.clock) {
      assert ClientInv(commands[i], s.clients[i], s.record, s.clock);
      if Holding(s.clients[i]) && LeaseOf(commands[i]).Some? {
        LeaseEnd(s.record.value, s.clients[i].lease, LeaseOf(commands[i]).value, s.clock);
      }
    }
  }

  lemma DeliverKeepsInv(commands: seq<Command>, s: State, i: nat, message: Message, later: int)
    requires |s.clients| == |commands| && DistinctHolders(commands) && Inv(commands, s)
    requires Enabled(commands, s, Deliver(i, message, later))
    ensures Inv(commands, Next(commands, s, Deliver(i, message, later)))
  {
    var c, client := commands[i], s.clients[i];
    assert ClientInv(c, client, s.record, s.clock);
    var op := Request(c, client, message);
    HandleKeepsInv(commands, s, op, later);
    var after := Handle(commands, s, op, later);
    var s' := Next(commands, s, Deliver(i, message, later));
    forall j | 0 <= j < |commands| ensures ClientInv(commands[j], s'.clients[j], s'.record, s'.clock) {
      assert ClientInv(commands[j], after.clients[j], after.record, after.clock);
    }
  }

  lemma TakeKeepsInv(commands: seq<Command>, s: State, i: nat, act: Act)
    requires |s.clients| == |commands| && Inv(commands, s)
    requires Enabled(commands, s, Take(i, act))
    ensures Inv(commands, Next(commands, s, Take(i, act)))
  {
  }

  lemma StepKeepsInv(commands: seq<Command>, s: State, step: Step)
    requires |s.clients| == |commands| && DistinctHolders(commands) && Inv(commands, s)
    ensures Inv(commands, Next(commands, s, step))
  {
    if Enabled(commands, s, step) {
      match step {
        case Wait(_) =>
        case Foreign(op, later) => HandleKeepsInv(commands, s, op, later);
        case Deliver(i, message, later) => DeliverKeepsInv(commands, s, i, message, later);
        case Take(i, act) => TakeKeepsInv(commands, s, i, act);
      }
    }
  }

  lemma {:induction false} ExecKeepsInv(commands: seq<Command>, record: Option<Lock>, clock: int, steps: seq<Step>)
    requires DistinctHolders(commands)
    ensures Inv(commands, Exec(commands, Start(record, clock, commands), steps))
  {
    if steps != [] {
      var n := |steps| - 1;
      ExecKeepsInv(commands, record, clock, steps[..n]);
      StepKeepsInv(commands, Exec(commands, Start(record, clock, commands), steps[..n]), steps[n]);
    }
  }

  /**
    Mutual exclusion.  In every run at most one command is in its body with
    state `acquired`, and for as long as it is there the record on the box is
    live and names it.
  */
  lemma MutualExclusion(commands: seq<Command>, record: Option<Lock>, clock: int, steps: seq<Step>, i: nat)
    requires DistinctHolders(commands) && i < |commands|
    requires Exec(commands, Start(record, clock, commands), steps).clients[i].phase == Working(Acquired)
    ensures var s := Exec(commands, Start(record, clock, commands), steps);
            && s.record.Some? && s.record.value.user == commands[i].holder && !Expired(s.record.value, s.clock)
            && forall j :: 0 <= j < |commands| && s.clients[j].phase == Working(Acquired) ==> j == i
  {
    ExecKeepsInv(commands, record, clock, steps);
    var s := Exec(commands, Start(record, clock, commands), steps);
    assert ClientInv(commands[i], s.clients[i], s.record, s.clock);
    if LeaseOf(commands[i]).Some? {
      LeaseEnd(s.record.value, s.clients[i].lease, LeaseOf(commands[i]).value, s.clock);
    }
    forall j | 0 <= j < |commands| && s.clients[j].phase == Working(Acquired) ensures j == i {
      assert ClientInv(commands[j], s.clients[j], s.record, s.clock);
    }
  }

  /** When the body of such a command ends and its release reaches the box, the box is free. */
  lemma FinishedCommandFreesBox(
      commands: seq<Command>, record: Option<Lock>, clock: int, steps: seq<Step>, i: nat, later: int)
    requires DistinctHolders(commands) && i < |commands| && commands[i].holder != ""
    requires Exec(commands, Start(record, clock, commands), steps).clients[i].phase == Working(Acquired)
    requires var ended := Next(commands, Exec(commands, Start(record, clock, commands), steps), Take(i, Finish));
             ended.clock <= later && Renewing(commands, ended, later)
    ensures var ended := Next(commands, Exec(commands, Start(record, clock, commands), steps), Take(i, Finish));
            Next(commands, ended, Deliver(i, LetGo, later)).record == None
  {
    MutualExclusion(commands, record, clock, steps, i);
  }

  // -------------------------------------------------------------------------
  // Releases are earned
  // -------------------------------------------------------------------------

  ghost predicate Earned(c: Command, client: Client) {
    && (Holding(client) || client.releases ==> client.created)
    && (client.phase.Told? ==> OwnPrevious(c, client.phase.reply))
  }

  /** The replies of the box bear out what a client takes from them. */
  lemma GrantedToAsker(record: Option<Lock>, op: Op, readAt: int, writeAt: int)
    ensures var reply := Apply(op, record, readAt, writeAt).reply;
            reply.Granted? && reply.previous.Some? ==> op.Acquire? && op.user != "" && reply.previous.value == op.user
  {
  }

  lemma EarnedStep(commands: seq<Command>, s: State, step: Step, i: nat)
    requires |s.clients| == |commands| && i < |commands| && Earned(commands[i], s.clients[i])
    ensures Earned(commands[i], Next(commands, s, step).clients[i])
  {
    hide Apply, LockScope, HolderEmail;
    if step.Deliver? && Enabled(commands, s, step) {
      GrantedToAsker(s.record, Request(commands[step.i], s.clients[step.i], step.message), s.clock, step.later);
    }
  }

  /** Whoever posts a release, or counts as holding the lock, had it made by an acquire of its own. */
  lemma {:induction false} ReleasesAreEarned(
      commands: seq<Command>, record: Option<Lock>, clock: int, steps: seq<Step>, i: nat)
    requires i < |commands|
    ensures Earned(commands[i], Exec(commands, Start(record, clock, commands), steps).clients[i])
  {
    hide Next;
    if steps != [] {
      var n := |steps| - 1;
      ReleasesAreEarned(commands, record, clock, steps[..n], i);
      EarnedStep(commands, Exec(commands, Start(record, clock, commands), steps[..n]), steps[n], i);
    }
  }

  // -------------------------------------------------------------------------
  // Nobody works under a stranger's lock
  // -------------------------------------------------------------------------

  /** A lock that a command works under without having made it, or renews, is rightfully its own. */
  ghost predicate Rightful(c: Command, client: Client) {
    && (client.phase.Working? && client.phase.hold.AlreadyOurs? ==>
          Ours(client.phase.hold.stored, c.holder, c.user, true))
    && (client.beats.Some? ==> client.beats.value == c.holder || Ours(client.beats.value, c.holder, c.user, true))
    && (client.phase.Told? && client.phase.reply.Granted? && client.phase.reply.previous.Some? ==>
          client.phase.reply.lock.user == client.phase.reply.previous.value)
  }

  lemma GrantedKeepsUser(record: Option<Lock>, op: Op, readAt: int, writeAt: int)
    ensures var reply := Apply(op, record, readAt, writeAt).reply;
            reply.Granted? && reply.previous.Some? ==> reply.lock.user == reply.previous.value
  {
  }

  lemma RightfulReply(c: Command, client: Client, message: Message, reply: Reply)
    requires Rightful(c, client) && Sent(client, message)
    requires reply.Granted? && reply.previous.Some? ==> reply.lock.user == reply.previous.value
    ensures Rightful(c, Replied(c, client, message, reply))
  {
    hide HolderIsOurs, Ours;
    if message.Look? && reply.Shown? {
      OursIff(reply.lock.user, c.holder, c.user, true);
    }
  }

  lemma RightfulAct(c: Command, client: Client, act: Act)
    requires Rightful(c, client) && CanTake(c, client, act)
    ensures Rightful(c, Acted(c, client, act))
  {
    hide HolderIsOurs, Ours;
    if act.Hear? && (client.phase.reply.Granted? || client.phase.reply.Conflict?) {
      OursIff(client.phase.reply.lock.user, c.holder, c.user, true);
    }
  }

  lemma RightfulStep(commands: seq<Command>, s: State, step: Step, i: nat)
    requires |s.clients| == |commands| && i < |commands| && Rightful(commands[i], s.clients[i])
    ensures Rightful(commands[i], Next(commands, s, step).clients[i])
  {
    hide Apply, Ours, IsOurs, Replied, Acted, CanTake, Renewing;
    var c := commands[i];
    if step.Deliver? && Enabled(commands, s, step) {
      var op := Request(commands[step.i], s.clients[step.i], step.message);
      GrantedKeepsUser(s.record, op, s.clock, step.later);
      var client := Handle(commands, s, op, step.later).clients[i];
      assert client == s.clients[i].(lease := client.lease);
      if step.i == i {
        RightfulReply(c, client, step.message, Apply(op, s.record, s.clock, step.later).reply);
      }
    } else if step.Take? && step.i == i && Enabled(commands, s, step) {
      RightfulAct(c, s.clients[i], step.act);
    }
  }

  /**
    In every run, a command that works under a lock which it did not make has
    found its own holder there, its own job, its user, or its user's email; and
    it renews no other lock.
  */
  lemma {:induction false} StrangersLocksAreLeftAlone(
      commands: seq<Command>, record: Option<Lock>, clock: int, steps: seq<Step>, i: nat)
    requires i < |commands|
    ensures Rightful(commands[i], Exec(commands, Start(record, clock, commands), steps).clients[i])
  {
    hide Next;
    if steps != [] {
      var n := |steps| - 1;
      StrangersLocksAreLeftAlone(commands, record, clock, steps[..n], i);
      RightfulStep(commands, Exec(commands, Start(record, clock, commands), steps[..n]), steps[n], i);
    }
  }

  // -------------------------------------------------------------------------
  // Reservations survive
  // -------------------------------------------------------------------------

  /** A command on a reserved box works under the reservation, and owes no release. */
  predicate Guest(c: Command, client: Client, lock: Lock) {
    && client.phase != Working(Acquired)
    && !client.releases
    && !client.created
    && (client.phase.Told? && client.phase.reply.Granted? ==>
          client.phase.reply.previous == Some(lock.user) && IsOurs(c, lock.user))
    && (client.phase.Told? && client.phase.reply.Conflict? ==> client.phase.reply.lock.user == lock.user)
  }

  ghost predicate Hosted(commands: seq<Command>, s: State, lock: Lock)
    requires |s.clients| == |commands|
  {
    && SameReservation(s.record, lock)
    && forall i :: 0 <= i < |commands| ==> Guest(commands[i], s.clients[i], lock)
  }

  lemma ReservedReplies(lock: Lock, record: Option<Lock>, op: Op, readAt: int, writeAt: int)
    requires Reservation(lock) && SameReservation(record, lock)
    requires op.Release? ==> op.user != lock.user && !op.force
    ensures var outcome := Apply(op, record, readAt, writeAt);
            && SameReservation(outcome.record, lock)
            && (outcome.reply.Granted? ==> op.user == lock.user && outcome.reply.previous == Some(lock.user))
            && (outcome.reply.Conflict? ==> outcome.reply.lock.user == lock.user)
  {
  }

  lemma ReservedStep(commands: seq<Command>, s: State, step: Step, lock: Lock)
    requires |s.clients| == |commands| && Hosted(commands, s, lock)
    requires Reservation(lock) && forall i :: 0 <= i < |commands| ==> IsOurs(commands[i], lock.user)
    requires step.Foreign? && step.op.Release? ==> step.op.user != lock.user
    ensures Hosted(commands, Next(commands, s, step), lock)
  {
    hide Apply, LockScope, HolderEmail;
    if Enabled(commands, s, step) {
      match step {
        case Wait(_) =>
        case Foreign(op, later) =>
          ReservedReplies(lock, s.record, op, s.clock, later);
          assert forall i :: 0 <= i < |commands| ==> Guest(commands[i], s.clients[i], lock);
        case Deliver(i, message, later) =>
          assert Guest(commands[i], s.clients[i], lock);
          ReservedReplies(lock, s.record, Request(commands[i], s.clients[i], message), s.clock, later);
          assert forall j :: 0 <= j < |commands| ==> Guest(commands[j], s.clients[j], lock);
        case Take(i, act) =>
          assert Guest(commands[i], s.clients[i], lock);
      }
    }
  }

  /**
    However many commands run under a reservation that is theirs to use, and
    whichever way each of them finds that out, it keeps its user, its
    classification, its acquire time and its missing lease; none of them takes
    itself for the owner, and none posts a release.
  */
  lemma {:induction false} ReservationOutlivesCommands(
      commands: seq<Command>, lock: Lock, clock: int, steps: seq<Step>)
    requires Reservation(lock) && forall i :: 0 <= i < |commands| ==> IsOurs(commands[i], lock.user)
    requires forall step :: step in steps && step.Foreign? && step.op.Release? ==> step.op.user != lock.user
    ensures Hosted(commands, Exec(commands, Start(Some(lock), clock, commands), steps), lock)
  {
    if steps != [] {
      var n := |steps| - 1;
      ReservationOutlivesCommands(commands, lock, clock, steps[..n]);
      assert steps[n] in steps;
      ReservedStep(commands, Exec(commands, Start(Some(lock), clock, commands), steps[..n]), steps[n], lock);
    }
  }

  // -------------------------------------------------------------------------
  // The machine gets somewhere
  // -------------------------------------------------------------------------

  /** On a free box any command can, at any time, look, ask and be told that it has the lock. */
  lemma FreeBoxCanBeAcquired(commands: seq<Command>, clock: int, later: int, i: nat)
    requires i < |commands| && commands[i].holder != "" && clock <= later
    ensures var s0 := Next(commands, Start(None, clock, commands), Wait(later));
            var s1 := Next(commands, s0, Deliver(i, Look(true), later));
            var s2 := Next(commands, s1, Deliver(i, Ask, later));
            && s0.clock == later && s0.clients[i].phase == NotStarted && s1.clients[i].phase == Asking
            && Next(commands, s2, Take(i, Hear(false))).clients[i].phase == Working(Acquired)
  {
    var s0 := Next(commands, Start(None, clock, commands), Wait(later));
    assert s0 == Start(None, clock, commands).(clock := later);
    var s1 := Next(commands, s0, Deliver(i, Look(true), later));
    assert s1.clients[i].phase == Asking && s1.record == None;
    var s2 := Next(commands, s1, Deliver(i, Ask, later));
    assert s2.clients[i].phase.Told?;
  }
}
