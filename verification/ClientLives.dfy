/**
  The lives of single commands against the box: how they renew, end, dissolve,
  give up and die, and what each of these leaves behind.
*/
module ClientLives {
  import opened Options
  import opened LockState
  import opened LockRuns
  import opened HolderRule
  import opened LockClients

  // -------------------------------------------------------------------------
  // Renewing
  // -------------------------------------------------------------------------

  /** The holder under which a command's lock is kept alive: its own, or the stored one that it works under. */
  predicate RenewsAs(c: Command, hold: Hold, holder: string) {
    match hold
    case Acquired => c.ttl.Some? && holder == c.holder
    case AlreadyOurs(stored, leased) => leased && holder == if stored == "" then c.holder else stored
    case Unreachable => false
  }

  /**
    A command in its body renews exactly the lock it works under, if that has a
    lease: its heartbeat, when it reaches the box while the lock is live, stamps
    the record and changes nothing else in it.
  */
  lemma BeatsRenew(commands: seq<Command>, s: State, i: nat, later: int, holder: string)
    requires |s.clients| == |commands| && i < |commands| && s.clients[i].phase.Working?
    requires RenewsAs(commands[i], s.clients[i].phase.hold, holder) && holder != ""
    requires s.record.Some? && s.record.value.user == holder && !Expired(s.record.value, s.clock)
    requires s.clock <= later && Renewing(commands, s, later)
    ensures var beat := Next(commands, s, Take(i, SendBeat));
            var renewed := Next(commands, beat, Deliver(i, Beat, later));
            && beat == s.(clients := s.clients[i := s.clients[i].(beats := Some(holder))])
            && renewed.record == Some(s.record.value.(lastHeartbeat := Some(At(later / SECOND))))
            && (commands[i].holder == holder ==> renewed.clients[i].lease == later)
  {
    var beat := Next(commands, s, Take(i, SendBeat));
    assert beat.clients[i].beats == Some(holder);
    assert Renewing(commands, beat, later) by {
      forall j | 0 <= j < |commands| ensures Holding(beat.clients[j]) == Holding(s.clients[j]) && beat.clients[j].lease == s.clients[j].lease {
      }
      hide Holding, LeaseOf;
    }
  }

  /** A lock without a lease, and no lock at all, are not renewed. */
  lemma OthersAreNotRenewed(commands: seq<Command>, s: State, i: nat)
    requires |s.clients| == |commands| && i < |commands|
    requires s.clients[i].phase.Working? ==> forall holder :: !RenewsAs(commands[i], s.clients[i].phase.hold, holder)
    ensures Next(commands, s, Take(i, SendBeat)) == s
  {
    if s.clients[i].phase.Working? {
      var hold := s.clients[i].phase.hold;
      assert !RenewsAs(commands[i], hold, if hold.AlreadyOurs? && hold.stored != "" then hold.stored else commands[i].holder);
    }
  }

  // -------------------------------------------------------------------------
  // Giving up
  // -------------------------------------------------------------------------

  /**
    A command that gives up waiting goes on without a lock.  The request it gave
    up on may still reach a free box: that is then locked under its holder, for
    nobody, and when its body ends nothing is released.
  */
  lemma LateAskLocksForNobody(commands: seq<Command>, s: State, i: nat, later: int)
    requires |s.clients| == |commands| && i < |commands| && commands[i].holder != ""
    requires s.clients[i].phase.Asking? && !s.clients[i].releases
    requires s.record.Some? ==> Expired(s.record.value, s.clock)
    requires s.clock <= later && Renewing(commands, s, later)
    ensures var gaveUp := Next(commands, s, Take(i, GiveUp));
            var locked := Next(commands, gaveUp, Deliver(i, LateAsk, later));
            var ended := Next(commands, locked, Take(i, Finish));
            && gaveUp.clients[i].phase == Working(Unreachable) && gaveUp.record == s.record
            && locked.record.Some? && locked.record.value.user == commands[i].holder
            && locked.record.value.ttl == LeaseOf(commands[i])
            && locked.clients[i].created && locked.clients[i].phase == Working(Unreachable)
            && ended.clients[i].phase == Ending && !ended.clients[i].releases && ended.record == locked.record
  {
    var gaveUp := Next(commands, s, Take(i, GiveUp));
    assert gaveUp == s.(clients := s.clients[i := s.clients[i].(phase := Working(Unreachable), straggler := true)]);
    assert Renewing(commands, gaveUp, later) by {
      forall j | 0 <= j < |commands| && Holding(gaveUp.clients[j]) ensures Holding(s.clients[j]) && gaveUp.clients[j] == s.clients[j] {
      }
      hide Holding, LeaseOf;
    }
    var locked := Next(commands, gaveUp, Deliver(i, LateAsk, later));
    assert locked.clients[i].phase == Working(Unreachable);
  }

  /** One that was already answered, but did not hear it, leaves nothing to be delivered. */
  lemma UnheardAnswerIsLost(commands: seq<Command>, s: State, i: nat)
    requires |s.clients| == |commands| && i < |commands| && s.clients[i].phase.Told?
    ensures Next(commands, s, Take(i, GiveUp)) == s.(clients := s.clients[i := s.clients[i].(phase := Working(Unreachable))])
  {
  }

  // -------------------------------------------------------------------------
  // Ends
  // -------------------------------------------------------------------------

  /** The command is over, or has removed the lock server. */
  predicate IsOver(client: Client) {
    client.phase.Dissolved? || client.phase.Ending? || client.phase.Gone?
  }

  lemma OverStep(commands: seq<Command>, s: State, step: Step, i: nat)
    requires |s.clients| == |commands| && i < |commands| && IsOver(s.clients[i])
    ensures var now, later := s.clients[i], Next(commands, s, step).clients[i];
            && IsOver(later) && later.beats == now.beats && later.releases == now.releases && later.straggler == now.straggler
            && (now.phase.Gone? ==> later.phase.Gone?)
  {
    hide Apply, HolderIsOurs, Renewing;
  }

  lemma {:induction false} OverIsOver(commands: seq<Command>, s: State, steps: seq<Step>, i: nat)
    requires |s.clients| == |commands| && i < |commands| && IsOver(s.clients[i])
    ensures var now, later := s.clients[i], Exec(commands, s, steps).clients[i];
            && IsOver(later) && later.beats == now.beats && later.releases == now.releases && later.straggler == now.straggler
            && (now.phase.Gone? ==> later.phase.Gone?)
  {
    hide Next;
    if steps != [] {
      OverIsOver(commands, s, steps[..|steps| - 1], i);
      OverStep(commands, Exec(commands, s, steps[..|steps| - 1]), steps[|steps| - 1], i);
    }
  }

  /**
    A command that has removed the lock server goes on with its body; but whatever
    happens, and even if it had made the lock, it never renews it again and never
    posts a release.
  */
  lemma DissolvedOwesNothing(commands: seq<Command>, s: State, steps: seq<Step>, i: nat)
    requires |s.clients| == |commands| && i < |commands| && s.clients[i].phase.Working? && !s.clients[i].releases
    ensures var dissolved := Next(commands, s, Take(i, Dissolve));
            var later := Exec(commands, dissolved, steps);
            && dissolved == s.(clients := s.clients[i := s.clients[i].(phase := Dissolved)])
            && Next(commands, dissolved, Take(i, Finish)) == s.(clients := s.clients[i := s.clients[i].(phase := Ending)])
            && !later.clients[i].releases && later.clients[i].beats == s.clients[i].beats
            && Next(commands, later, Take(i, SendBeat)) == later
  {
    var dissolved := Next(commands, s, Take(i, Dissolve));
    OverIsOver(commands, dissolved, steps, i);
    hide Exec;
  }

  /**
    A body that ends, ends for good.  It owes a release exactly if it had made the
    lock itself; a lock that it found, and no lock, it leaves alone.
  */
  lemma EndedOwesItsOwn(commands: seq<Command>, s: State, steps: seq<Step>, i: nat)
    requires |s.clients| == |commands| && i < |commands| && s.clients[i].phase.Working? && !s.clients[i].releases
    ensures var ended := Next(commands, s, Take(i, Finish));
            var later := Exec(commands, ended, steps);
            && ended.clients[i].phase == Ending && ended.record == s.record
            && (later.clients[i].releases <==> s.clients[i].phase.hold == Acquired)
            && !later.clients[i].phase.Working?
  {
    var ended := Next(commands, s, Take(i, Finish));
    OverIsOver(commands, ended, steps, i);
    hide Exec;
  }

  /** A process that dies, wherever it is, posts nothing that it had not posted, and the record stays as it is. */
  lemma DeadPostsNothing(commands: seq<Command>, s: State, steps: seq<Step>, i: nat)
    requires |s.clients| == |commands| && i < |commands|
    ensures var dead := Next(commands, s, Take(i, Depart));
            var later := Exec(commands, dead, steps);
            && dead == s.(clients := s.clients[i := s.clients[i].(phase := Gone)])
            && later.clients[i].phase == Gone
            && later.clients[i].releases == s.clients[i].releases && later.clients[i].beats == s.clients[i].beats
  {
    OverIsOver(commands, Next(commands, s, Take(i, Depart)), steps, i);
    hide Exec;
  }
}
