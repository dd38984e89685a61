/**
  The client's side of one auto-locked command: the acquire loop, the release
  loop, and the flags that keep `finally`, `atexit` and dissolve to one release.
*/
module LockSession {
  import opened Options
  import opened LockState
  import opened HolderRule
  import opened LockClients
  import opened Heartbeat

  // -------------------------------------------------------------------------
  // Acquiring
  // -------------------------------------------------------------------------

  /** One acquire request: its reply, if any came, and the clock when it was dealt with. */
  datatype Post = Post(reply: Option<Reply>, now: int)

  /** Where the posts lead, and how many are made.  A list that runs out leaves the command waiting. */
  function Settle(c: Command, posts: seq<Post>, deadline: int): (Phase, nat) {
    if posts == [] then (Asking, 0)
    else if posts[0].reply.None? then (Working(Unreachable), 1)
    else
      var phase := Heard(c, posts[0].reply.value, posts[0].now < deadline);
      if phase != Asking then (phase, 1)
      else
        var (last, n) := Settle(c, posts[1..], deadline);
        (last, n + 1)
  }

  /** The check before the acquire saw a lock that is ours to use. */
  ghost predicate SeenOurs(c: Command, seen: Option<Lock>) {
    seen.Some? && Ours(seen.value.user, c.holder, c.user, true)
  }

  /** `seen` is the record of the first look, or none where that look failed or found the box free. */
  method AcquireBoxLock(c: Command, seen: Option<Lock>, posts: seq<Post>, deadline: int)
    returns (phase: Phase, made: nat)
    ensures SeenOurs(c, seen) ==>
              phase == Working(AlreadyOurs(seen.value.user, seen.value.ttl.Some?)) && made == 0
    ensures !SeenOurs(c, seen) ==> (phase, made) == Settle(c, posts, deadline)
  {
    if seen.Some? {
      OursIff(seen.value.user, c.holder, c.user, true);
    }
    hide Ours;
    if seen.Some? && HolderIsOurs(seen.value.user, c.holder, c.user, true) {
      return Working(AlreadyOurs(seen.value.user, seen.value.ttl.Some?)), 0;
    }
    hide HolderIsOurs;
    made := 0;
    while made < |posts|
      invariant made <= |posts|
      invariant Settle(c, posts, deadline)
             == (Settle(c, posts[made..], deadline).0, Settle(c, posts[made..], deadline).1 + made)
    {
      var post := posts[made];
      assert posts[made..][1..] == posts[made + 1..];
      made := made + 1;
      if post.reply.None? {
        return Working(Unreachable), made;
      }
      match post.reply.value {
        case Granted(lock, previous) =>
          if previous.Some? && HolderIsOurs(previous.value, c.holder, c.user, true) {
            return Working(AlreadyOurs(lock.user, lock.ttl.Some?)), made;
          }
          return Working(Acquired), made;
        case Conflict(lock) =>
          if HolderIsOurs(lock.user, c.holder, c.user, true) {
            return Working(AlreadyOurs(lock.user, lock.ttl.Some?)), made;
          }
          if post.now >= deadline {
            return Gone, made;
          }
        case _ =>
          return Gone, made;
      }
    }
    phase := Asking;
  }

  /** A post that leaves the command waiting: the box is someone else's, and there is time left. */
  predicate Waits(c: Command, post: Post, deadline: int) {
    && post.reply.Some? && post.reply.value.Conflict?
    && !IsOurs(c, post.reply.value.lock.user)
    && post.now < deadline
  }

  /** A post that ends the waiting for good: another's lock when time is up, or an answer that is neither. */
  predicate Fails(c: Command, post: Post) {
    post.reply.Some? && match post.reply.value
                        case Granted(_, _) => false
                        case Conflict(lock) => !IsOurs(c, lock.user)
                        case _ => true
  }

  /** A post that finds a lock that is ours to use: it renewed the lock, or met one of a sibling. */
  predicate Resumes(c: Command, post: Post, stored: string, leased: bool) {
    post.reply.Some? && match post.reply.value
                        case Granted(lock, previous) =>
                          previous.Some? && IsOurs(c, previous.value) && stored == lock.user && leased == lock.ttl.Some?
                        case Conflict(lock) => IsOurs(c, lock.user) && stored == lock.user && leased == lock.ttl.Some?
                        case _ => false
  }

  /** Every post before the last one met someone else's lock in time; the last one decides. */
  lemma {:induction false} SettleMeans(c: Command, posts: seq<Post>, deadline: int)
    ensures var (phase, n) := Settle(c, posts, deadline);
            && n <= |posts|
            && (phase == Asking ==> n == |posts| && forall i :: 0 <= i < n ==> Waits(c, posts[i], deadline))
            && (phase != Asking ==>
                  && n >= 1 && !Waits(c, posts[n - 1], deadline)
                  && (forall i :: 0 <= i < n - 1 ==> Waits(c, posts[i], deadline))
                  && (phase == Working(Acquired) <==>
                        && posts[n - 1].reply.Some? && posts[n - 1].reply.value.Granted?
                        && (posts[n - 1].reply.value.previous.None?
                            || !IsOurs(c, posts[n - 1].reply.value.previous.value)))
                  && (phase == Working(Unreachable) <==> posts[n - 1].reply.None?)
                  && (phase == Gone <==> Fails(c, posts[n - 1]))
                  && (forall stored, leased :: phase == Working(AlreadyOurs(stored, leased)) <==>
                        Resumes(c, posts[n - 1], stored, leased)))
  {
    if posts != [] && posts[0].reply.Some?
       && Heard(c, posts[0].reply.value, posts[0].now < deadline) == Asking {
      SettleMeans(c, posts[1..], deadline);
      var (phase, n) := Settle(c, posts[1..], deadline);
      assert forall i :: 0 < i < |posts| ==> posts[i] == posts[1..][i - 1];
      assert Waits(c, posts[0], deadline);
    }
  }

  // -------------------------------------------------------------------------
  // Releasing
  // -------------------------------------------------------------------------

  /** One release request: its HTTP status, if any came, and the clock when it was dealt with. */
  datatype Unlock = Unlock(status: Option<int>, now: int)

  predicate Unanswered(request: Unlock) {
    request.status.None? || request.status.value >= 500
  }

  /** Asks again while the box does not answer and there is time.  The list reaches as far as the asking does. */
  method ReleaseBoxLock(requests: seq<Unlock>, deadline: int) returns (confirmed: bool, made: nat)
    requires exists i :: 0 <= i < |requests| && (requests[i].now >= deadline || !Unanswered(requests[i]))
    ensures 1 <= made <= |requests|
    ensures forall i :: 0 <= i < made - 1 ==> requests[i].now < deadline && (requests[i].status == None || requests[i].status.value >= 500)
    ensures confirmed <==> requests[made - 1].status == Some(200)
    ensures !confirmed ==>
              || requests[made - 1].now >= deadline
              || (requests[made - 1].status.Some? && requests[made - 1].status.value < 500)
  {
    ghost var last :| 0 <= last < |requests| && (requests[last].now >= deadline || !Unanswered(requests[last]));
    made := 0;
    while true
      invariant made <= last
      invariant forall i :: 0 <= i < made ==> Unanswered(requests[i]) && requests[i].now < deadline
      decreases |requests| - made
    {
      var request := requests[made];
      made := made + 1;
      if request.status == Some(200) {
        return true, made;
      }
      if !(Unanswered(request) && request.now < deadline) {
        return false, made;
      }
    }
  }

  // -------------------------------------------------------------------------
  // The session
  // -------------------------------------------------------------------------

  /** `owes`: a release is still due.  `armed`: the exit handler is registered.  `calls`: releases made. */
  datatype Flags = Flags(owes: bool, dissolved: bool, armed: bool, calls: nat)

  /** What can befall a session: any number of each, in any order. */
  datatype Happening = DissolveCall | BodyEnds | ProcessExits

  function Opened(hold: Hold): Flags {
    Flags(hold.Acquired?, false, hold.Acquired?, 0)
  }

  function Settled(flags: Flags): Flags {
    if flags.owes then flags.(owes := false, armed := false, calls := flags.calls + 1) else flags
  }

  function Meets(flags: Flags, happening: Happening): Flags {
    match happening
    case DissolveCall => if flags.dissolved then flags else flags.(dissolved := true, owes := false, armed := false)
    case BodyEnds => Settled(flags)
    case ProcessExits => if flags.armed then Settled(flags) else flags
  }

  class Session {
    const command: Command
    const hold: Hold
    const heartbeat: HeartbeatThread?
    var released: bool
    var dissolved: bool
    var armed: bool
    var calls: nat

    /** A heartbeat runs exactly where the command sends any, measured against the lease it lives under. */
    constructor (command: Command, hold: Hold, resumedTtl: Option<int>, interval: int)
      requires hold.AlreadyOurs? ==> hold.leased == resumedTtl.Some?
      ensures this.command == command && this.hold == hold && View() == Opened(hold)
      ensures heartbeat != null <==> BeatHolder(command, hold).Some?
      ensures heartbeat != null ==>
                fresh(heartbeat) && heartbeat.settings.ttl == (if hold.Acquired? then command.ttl else resumedTtl)
    {
      this.command, this.hold := command, hold;
      released := !hold.Acquired?;
      armed := hold.Acquired?;
      dissolved := false;
      calls := 0;
      if hold.Acquired? && command.ttl.Some? {
        var thread := new HeartbeatThread(interval, command.ttl);
        heartbeat := thread;
      } else if hold.AlreadyOurs? && resumedTtl.Some? {
        var thread := new HeartbeatThread(interval, resumedTtl);
        heartbeat := thread;
      } else {
        heartbeat := null;
      }
    }

    function View(): Flags
      reads this
    {
      Flags(!released, dissolved, armed, calls)
    }

    method SafeRelease()
      modifies this`released, this`armed, this`calls
      ensures View() == Settled(old(View()))
    {
      if released {
        return;
      }
      released := true;
      armed := false;
      calls := calls + 1;
    }

    method DissolveLock()
      modifies this`released, this`armed, this`dissolved, heartbeat
      ensures View() == Meets(old(View()), DissolveCall)
      ensures heartbeat != null && !old(dissolved) ==> heartbeat.stopped
    {
      if dissolved {
        return;
      }
      dissolved := true;
      if heartbeat != null {
        heartbeat.StopThread();
      }
      released := true;
      armed := false;
    }

    method Suspend()
      modifies heartbeat
      ensures heartbeat != null ==> heartbeat.View() == Turn(heartbeat.settings, old(heartbeat.View()), Pause)
    {
      if heartbeat != null {
        heartbeat.PauseRenewals();
      }
    }

    /** A dissolved session never takes its renewals up again. */
    method Resume()
      modifies heartbeat
      ensures heartbeat != null && !dissolved ==>
                heartbeat.View() == Turn(heartbeat.settings, old(heartbeat.View()), Unpause)
      ensures heartbeat != null && dissolved ==> heartbeat.View() == old(heartbeat.View())
    {
      if heartbeat != null && !dissolved {
        heartbeat.ResumeRenewals();
      }
    }

    method OnBodyEnd()
      modifies this`released, this`armed, this`calls, heartbeat
      ensures View() == Meets(old(View()), BodyEnds)
      ensures heartbeat != null ==> heartbeat.stopped
    {
      if heartbeat != null {
        heartbeat.StopThread();
      }
      SafeRelease();
    }

    method OnProcessExit()
      modifies this`released, this`armed, this`calls
      ensures View() == Meets(old(View()), ProcessExits)
    {
      if armed {
        SafeRelease();
      }
    }
  }

  function FlagsAfter(hold: Hold, happenings: seq<Happening>): Flags {
    if happenings == [] then Opened(hold)
    else Meets(FlagsAfter(hold, happenings[..|happenings| - 1]), happenings[|happenings| - 1])
  }

  /**
    One release in total, whatever happens and how often: it is made exactly
    when the session's own acquire made the lock and the first thing to befall
    it was not a dissolve.
  */
  lemma {:induction false} OneReleasePath(hold: Hold, happenings: seq<Happening>)
    ensures var flags := FlagsAfter(hold, happenings);
            && flags.calls == (if hold.Acquired? && happenings != [] && !happenings[0].DissolveCall? then 1 else 0)
            && (flags.owes <==> hold.Acquired? && happenings == [])
            && (flags.armed <==> flags.owes)
            && (flags.dissolved <==> DissolveCall in happenings)
  {
    if happenings != [] {
      OneReleasePath(hold, happenings[..|happenings| - 1]);
    }
  }
}
