/**
  Who closes the sockets of a tunnel.  Each accepted connection has a handler
  thread, which registers its sockets and closes them when it is done; `close`,
  which any thread may call at any time, takes all that are registered and
  closes them under the handlers' feet.
*/
module GatewayTunnel {
  // -------------------------------------------------------------------------
  // One thread
  // -------------------------------------------------------------------------

  class Socket {
    var isOpen: bool

    constructor ()
      ensures isOpen
    {
      isOpen := true;
    }

    method HardClose()
      modifies this
      ensures !isOpen
    {
      isOpen := false;
    }
  }

  /** How opening the tunnel to the box ends. */
  datatype Opening = Tunnel(upstream: Socket) | Passing | Fatal

  class GatewayTunnel {
    var closed: bool
    var listener: Socket?
    var active: set<Socket>
    var failed: bool

    constructor (listener: Socket)
      ensures !closed && this.listener == listener && active == {} && !failed
    {
      closed, this.listener, active, failed := false, listener, {}, false;
    }

    method Track(sock: Socket) returns (ok: bool)
      modifies this`active
      ensures ok <==> !closed
      ensures active == if ok then old(active) + {sock} else old(active)
    {
      if closed {
        return false;
      }
      active := active + {sock};
      ok := true;
    }

    method Untrack(socks: set<Socket>)
      modifies this`active
      ensures active == old(active) - socks
    {
      active := active - socks;
    }

    method Close()
      modifies this`closed, this`listener, this`active, this.active, this.listener
      ensures closed && listener == null && active == {}
      ensures old(listener) != null ==> !old(listener).isOpen
      ensures forall s <- old(active) :: !s.isOpen
    {
      closed := true;
      var waiting := listener;
      listener := null;
      var socks := active;
      active := {};
      if waiting != null {
        waiting.HardClose();
      }
      var left := socks;
      while left != {}
        invariant left <= socks
        invariant forall s <- socks - left :: !s.isOpen
        invariant old(listener) != null ==> !old(listener).isOpen
        modifies socks
        decreases left
      {
        var s :| s in left;
        s.HardClose();
        left := left - {s};
      }
    }

    /**
      Whatever becomes of a connection, and even if another thread closes the
      tunnel meanwhile, its handler leaves no socket of its own open, or registered.
    */
    method Handle(local: Socket, opening: Opening, interrupted: bool)
      requires local !in active && (opening.Tunnel? ==> opening.upstream !in active && opening.upstream != local)
      modifies this, active, listener, local, if opening.Tunnel? then {opening.upstream} else {}
      ensures !local.isOpen && local !in active
      ensures opening.Tunnel? && !old(closed) ==> !opening.upstream.isOpen && opening.upstream !in active
      ensures closed <==> old(closed) || interrupted || opening.Fatal?
      ensures active == if closed && !old(closed) then {} else old(active)
      ensures failed <==> old(failed) || (opening.Fatal? && !old(closed) && !interrupted)
    {
      var ok := Track(local);
      if !ok {
        local.HardClose();
        return;
      }
      if interrupted {
        Close();
      }
      match opening
      case Passing =>
        Untrack({local});
        local.HardClose();
      case Fatal =>
        Untrack({local});
        local.HardClose();
        if !closed {
          failed := true;
          Close();
        }
      case Tunnel(upstream) =>
        ok := Track(upstream);
        if ok {
          Untrack({local, upstream});
        } else {
          Untrack({local});
        }
        local.HardClose();
        upstream.HardClose();
    }
  }

  // -------------------------------------------------------------------------
  // All threads together
  // -------------------------------------------------------------------------

  /** The two sockets of handler `h`. */
  datatype Sock = Local(h: nat) | Upstream(h: nat)

  datatype Handler =
    | Fresh            // its connection is accepted, and not registered yet
    | Connecting       // it is registered; the tunnel is being opened
    | Connected        // so is the tunnel, which is not registered yet
    | Splicing         // both are registered
    | Dropping         // about to take them off the register
    | ClosingLocal
    | ClosingUpstream
    | Ended

  /** A call of `close`. */
  datatype Closer =
    | Called
    | Flagged                                           // the tunnel counts as closed
    | Closing(pending: set<Sock>, listener: bool)       // past its critical section, with what it took
    | Returned

  datatype State = State(
    closed: bool,
    sealed: bool,                                       // a critical section of `close` is past
    hasListener: bool,
    listening: bool,
    active: set<Sock>,
    live: set<Sock>,                                    // the sockets that are not closed
    handlers: seq<Handler>,
    closers: seq<Closer>)

  datatype Step =
    | Accept
    | Call
    | Go(h: nat, opens: bool)
    | Shut(c: nat, sock: Sock)

  predicate Enabled(s: State, step: Step) {
    match step
    case Accept => s.listening
    case Call => true
    case Go(h, _) => h < |s.handlers| && !s.handlers[h].Ended?
    case Shut(c, sock) =>
      c < |s.closers| && !s.closers[c].Returned?
      && (s.closers[c].Closing? && !s.closers[c].listener && s.closers[c].pending != {} ==> sock in s.closers[c].pending)
  }

  /** Where a handler is after its next step.  `opens` says whether the tunnel opens. */
  function After(t: Handler, closed: bool, opens: bool): Handler {
    match t
    case Fresh => if closed then ClosingLocal else Connecting
    case Connecting => if opens then Connected else Dropping
    case Connected => if closed then Dropping else Splicing
    case Splicing => Dropping
    case Dropping => ClosingLocal
    case ClosingLocal => ClosingUpstream
    case ClosingUpstream => Ended
    case Ended => Ended
  }

  /** What that step registers, or takes off the register. */
  function ActiveAfter(active: set<Sock>, h: nat, t: Handler, closed: bool): set<Sock> {
    match t
    case Fresh => if closed then active else active + {Local(h)}
    case Connected => if closed then active else active + {Upstream(h)}
    case Dropping => active - {Local(h), Upstream(h)}
    case _ => active
  }

  /** What it opens, or closes. */
  function LiveAfter(live: set<Sock>, h: nat, t: Handler, opens: bool): set<Sock> {
    match t
    case Connecting => if opens then live + {Upstream(h)} else live
    case ClosingLocal => live - {Local(h)}
    case ClosingUpstream => live - {Upstream(h)}
    case _ => live
  }

  function Handled(s: State, h: nat, opens: bool): State
    requires h < |s.handlers|
  {
    var t := s.handlers[h];
    s.(handlers := s.handlers[h := After(t, s.closed, opens)],
       active := ActiveAfter(s.active, h, t, s.closed),
       live := LiveAfter(s.live, h, t, opens))
  }

  function PutCloser(s: State, c: nat, closer: Closer): State
    requires c < |s.closers|
  {
    s.(closers := s.closers[c := closer])
  }

  /** The next thing that a call of `close` does: the flag, the critical section, the listener, and each socket. */
  function Shutting(s: State, c: nat, sock: Sock): State
    requires c < |s.closers|
  {
    match s.closers[c]
    case Called => PutCloser(s.(closed := true), c, Flagged)
    case Flagged =>
      PutCloser(s.(sealed := true, hasListener := false, active := {}), c, Closing(s.active, s.hasListener))
    case Closing(pending, listener) =>
      if listener then PutCloser(s.(listening := false), c, Closing(pending, false))
      else if pending == {} then PutCloser(s, c, Returned)
      else PutCloser(s.(live := s.live - {sock}), c, Closing(pending - {sock}, false))
    case Returned => s
  }

  /** A step that is not enabled changes nothing. */
  function Next(s: State, step: Step): State {
    if !Enabled(s, step) then s
    else
      match step
      case Accept => s.(handlers := s.handlers + [Fresh], live := s.live + {Local(|s.handlers|)})
      case Call => s.(closers := s.closers + [Called])
      case Go(h, opens) => Handled(s, h, opens)
      case Shut(c, sock) => Shutting(s, c, sock)
  }

  function Start(): State {
    State(false, false, true, true, {}, {}, [], [])
  }

  function Exec(s: State, steps: seq<Step>): State {
    if steps == [] then s else Next(Exec(s, steps[..|steps| - 1]), steps[|steps| - 1])
  }

  // -------------------------------------------------------------------------
  // The invariant
  // -------------------------------------------------------------------------

  /** Its handler has still to close this socket. */
  predicate HasToClose(s: State, x: Sock) {
    x.h < |s.handlers| && !s.handlers[x.h].Ended? && (x.Local? ==> !s.handlers[x.h].ClosingUpstream?)
  }

  /** Its handler has registered this socket, and not taken it off again. */
  predicate Registered(s: State, x: Sock) {
    && x.h < |s.handlers|
    && (s.handlers[x.h].Splicing? || (x.Local? && (s.handlers[x.h].Connecting? || s.handlers[x.h].Connected?)))
  }

  predicate Pending(s: State, c: nat, x: Sock) {
    c < |s.closers| && s.closers[c].Closing? && x in s.closers[c].pending
  }

  ghost predicate Owned(s: State) {
    forall x <- s.live :: HasToClose(s, x)
  }

  /** What a handler has registered is on the register, or a call of `close` has it, or it is closed. */
  ghost predicate Tracked(s: State) {
    forall x :: Registered(s, x) ==> x in s.active || x !in s.live || exists c :: Pending(s, c, x)
  }

  ghost predicate Sealed(s: State) {
    && (s.sealed ==> s.closed && s.active == {} && !s.hasListener)
    && (forall c :: 0 <= c < |s.closers| ==>
          && (s.closers[c].Closing? || s.closers[c].Returned? ==> s.sealed)
          && (!s.closers[c].Called? ==> s.closed))
  }

  /** Whoever took the listener closes it. */
  ghost predicate ListenerOwned(s: State) {
    s.listening ==> s.hasListener || exists c :: 0 <= c < |s.closers| && s.closers[c].Closing? && s.closers[c].listener
  }

  ghost predicate Inv(s: State) {
    Owned(s) && Tracked(s) && Sealed(s) && ListenerOwned(s)
  }

  /** A handler touches no sockets but its own. */
  lemma HandledIsItsOwn(s: State, h: nat, opens: bool, x: Sock)
    requires h < |s.handlers| && x.h != h
    ensures var next := Handled(s, h, opens);
            && next.closers == s.closers && next.handlers == s.handlers[h := next.handlers[h]]
            && (x in next.live <==> x in s.live) && (x in next.active <==> x in s.active)
  {
  }

  lemma HandledOwn(s: State, h: nat, opens: bool, x: Sock)
    requires h < |s.handlers| && x.h == h
    ensures var next := Handled(s, h, opens);
            && ((x in s.live ==> HasToClose(s, x)) ==> (x in next.live ==> HasToClose(next, x)))
            && (Registered(next, x) && x !in next.active && x in next.live ==>
                  Registered(s, x) && x !in s.active && x in s.live)
  {
    assert x == Local(h) || x == Upstream(h);
  }

  lemma HandledKeepsOwned(s: State, h: nat, opens: bool)
    requires Owned(s) && h < |s.handlers|
    ensures Owned(Handled(s, h, opens))
  {
    var next := Handled(s, h, opens);
    hide Handled;
    forall x | x in next.live
      ensures HasToClose(next, x)
    {
      if x.h == h {
        HandledOwn(s, h, opens, x);
      } else {
        HandledIsItsOwn(s, h, opens, x);
        assert HasToClose(s, x);
      }
    }
  }

  lemma ShuttingKeepsOwned(s: State, c: nat, sock: Sock)
    requires Owned(s) && c < |s.closers|
    ensures Owned(Shutting(s, c, sock))
  {
    assert forall x :: HasToClose(Shutting(s, c, sock), x) <==> HasToClose(s, x);
    hide HasToClose;
  }

  lemma StepKeepsOwned(s: State, step: Step)
    requires Owned(s)
    ensures Owned(Next(s, step))
  {
    hide Handled, Shutting;
    match step
    case Go(h, opens) => if Enabled(s, step) { HandledKeepsOwned(s, h, opens); }
    case Shut(c, sock) => if Enabled(s, step) { ShuttingKeepsOwned(s, c, sock); }
    case Accept =>
    case Call =>
  }

  lemma StepKeepsSealed(s: State, step: Step)
    requires Sealed(s)
    ensures Sealed(Next(s, step))
  {
  }

  lemma StepKeepsListener(s: State, step: Step)
    requires ListenerOwned(s)
    ensures ListenerOwned(Next(s, step))
  {
    var next := Next(s, step);
    if s.listening && !s.hasListener {
      var c :| 0 <= c < |s.closers| && s.closers[c].Closing? && s.closers[c].listener;
      assert next.listening ==> next.closers[c].Closing? && next.closers[c].listener;
    } else if next.listening && !next.hasListener {
      assert step.Shut? && next.closers[step.c].Closing?;
    }
  }

  lemma HandledKeepsTracked(s: State, h: nat, opens: bool)
    requires Tracked(s) && h < |s.handlers|
    ensures Tracked(Handled(s, h, opens))
  {
    var next := Handled(s, h, opens);
    HandledIsItsOwn(s, h, opens, Local(h + 1));
    hide Handled;
    forall x | Registered(next, x) && x !in next.active && x in next.live
      ensures exists c :: Pending(next, c, x)
    {
      if x.h == h {
        HandledOwn(s, h, opens, x);
      } else {
        HandledIsItsOwn(s, h, opens, x);
        assert Registered(s, x);
      }
      hide Registered;
      var c :| Pending(s, c, x);
      assert Pending(next, c, x);
    }
  }

  lemma ShuttingKeepsTracked(s: State, c: nat, sock: Sock)
    requires Tracked(s) && Sealed(s) && c < |s.closers|
    requires s.closers[c].Closing? && !s.closers[c].listener && s.closers[c].pending != {} ==> sock in s.closers[c].pending
    ensures Tracked(Shutting(s, c, sock))
  {
    var next := Shutting(s, c, sock);
    assert forall x :: Registered(next, x) <==> Registered(s, x);
    hide Registered;
    forall x | Registered(next, x) && x !in next.active && x in next.live
      ensures exists d :: Pending(next, d, x)
    {
      if x in s.active {
        assert Pending(next, c, x);
      } else {
        var d :| Pending(s, d, x);
        assert Pending(next, d, x);
      }
    }
  }

  lemma OthersKeepTracked(s: State, step: Step)
    requires Tracked(s) && (step.Accept? || step.Call?)
    ensures Tracked(Next(s, step))
  {
    var next := Next(s, step);
    forall x | Registered(next, x) && x !in next.active && x in next.live
      ensures exists c :: Pending(next, c, x)
    {
      assert Registered(s, x);
      var c :| Pending(s, c, x);
      assert Pending(next, c, x);
    }
  }

  lemma StepKeepsTracked(s: State, step: Step)
    requires Tracked(s) && Sealed(s)
    ensures Tracked(Next(s, step))
  {
    hide Handled, Shutting, Tracked, Sealed;
    match step
    case Go(h, opens) => if Enabled(s, step) { HandledKeepsTracked(s, h, opens); }
    case Shut(c, sock) => if Enabled(s, step) { ShuttingKeepsTracked(s, c, sock); }
    case Accept => OthersKeepTracked(s, step);
    case Call => OthersKeepTracked(s, step);
  }

  lemma {:induction false} ExecKeepsInv(steps: seq<Step>)
    ensures Inv(Exec(Start(), steps))
  {
    if steps != [] {
      var s := Exec(Start(), steps[..|steps| - 1]);
      ExecKeepsInv(steps[..|steps| - 1]);
      hide Owned, Tracked, Sealed, ListenerOwned, Next;
      StepKeepsOwned(s, steps[|steps| - 1]);
      StepKeepsSealed(s, steps[|steps| - 1]);
      StepKeepsTracked(s, steps[|steps| - 1]);
      StepKeepsListener(s, steps[|steps| - 1]);
    }
  }

  // -------------------------------------------------------------------------
  // The theorems
  // -------------------------------------------------------------------------

  lemma {:induction false} ExecStaysSealed(s: State, steps: seq<Step>)
    requires Sealed(s) && s.sealed
    ensures Sealed(Exec(s, steps)) && Exec(s, steps).sealed
  {
    if steps != [] {
      ExecStaysSealed(s, steps[..|steps| - 1]);
      StepKeepsSealed(Exec(s, steps[..|steps| - 1]), steps[|steps| - 1]);
      hide Sealed;
    }
  }

  /** After the critical section of a `close`, nothing is registered ever again. */
  lemma {:induction false} NothingJoinsAfterClose(before: seq<Step>, after: seq<Step>)
    requires Exec(Start(), before).sealed
    ensures Exec(Exec(Start(), before), after).active == {}
  {
    ExecKeepsInv(before);
    ExecStaysSealed(Exec(Start(), before), after);
  }

  /** A handler that has ended has closed both its sockets, and no open socket is without a handler that will. */
  lemma {:induction false} EndedMeansClosed(steps: seq<Step>, x: Sock)
    requires var s := Exec(Start(), steps); x in s.live
    ensures var s := Exec(Start(), steps);
            x.h < |s.handlers| && !s.handlers[x.h].Ended? && (x.Local? ==> !s.handlers[x.h].ClosingUpstream?)
  {
    ExecKeepsInv(steps);
  }

  /** No call of `close` has taken sockets that it has yet to close. */
  predicate NoneClosing(s: State) {
    forall c :: 0 <= c < |s.closers| ==> !s.closers[c].Closing?
  }

  /**
    Once `close` has run, and every call of it that took anything has returned,
    no socket is open but those that a handler was about to register, or had
    just taken off the register to close: and the listener is closed.
  */
  lemma {:induction false} CloseLeavesNothing(steps: seq<Step>, x: Sock)
    requires var s := Exec(Start(), steps); s.sealed && NoneClosing(s)
    ensures var s := Exec(Start(), steps);
            !s.listening && (Registered(s, x) ==> x !in s.live)
  {
    ExecKeepsInv(steps);
    assert forall c :: !Pending(Exec(Start(), steps), c, x);
  }

  /** How often `close` is called. */
  function CallsIn(steps: seq<Step>): nat {
    if steps == [] then 0 else CallsIn(steps[..|steps| - 1]) + if steps[|steps| - 1].Call? then 1 else 0
  }

  /** Once a call of `close` has returned, nothing that is registered is open. */
  ghost predicate ReturnedMeansClosed(s: State) {
    (exists c :: 0 <= c < |s.closers| && s.closers[c].Returned?) ==> forall x :: Registered(s, x) ==> x !in s.live
  }

  lemma {:induction false} CallsAreClosers(steps: seq<Step>)
    ensures |Exec(Start(), steps).closers| == CallsIn(steps)
  {
    if steps != [] {
      CallsAreClosers(steps[..|steps| - 1]);
      hide Handled;
    }
  }

  lemma {:induction false} OneCallIsEnough(steps: seq<Step>)
    requires CallsIn(steps) <= 1
    ensures ReturnedMeansClosed(Exec(Start(), steps))
  {
    var s := Exec(Start(), steps);
    CallsAreClosers(steps);
    ExecKeepsInv(steps);
    hide Registered;
    if c :| 0 <= c < |s.closers| && s.closers[c].Returned? {
      forall x | Registered(s, x)
        ensures x !in s.live
      {
        CloseLeavesNothing(steps, x);
      }
    }
  }

  lemma Then(steps: seq<Step>, step: Step) returns (longer: seq<Step>)
    ensures Exec(Start(), longer) == Next(Exec(Start(), steps), step)
    ensures CallsIn(longer) == CallsIn(steps) + if step.Call? then 1 else 0
  {
    longer := steps + [step];
    assert longer[..|steps|] == steps;
  }

  /** A second call finds nothing, and returns while the first is still at work. */
  lemma SecondCloseMayReturnFirst() returns (steps: seq<Step>)
    ensures var s := Exec(Start(), steps);
            CallsIn(steps) == 2 && |s.closers| == 2 && s.closers[1].Returned?
            && Registered(s, Local(0)) && Local(0) in s.live
  {
    var x := Local(0);
    steps := Then([], Accept);
    steps := Then(steps, Go(0, true));
    assert Exec(Start(), steps) == State(false, false, true, true, {x}, {x}, [Connecting], []);
    steps := Then(steps, Call);
    steps := Then(steps, Shut(0, x));
    steps := Then(steps, Shut(0, x));
    assert Exec(Start(), steps) == State(true, true, false, true, {}, {x}, [Connecting], [Closing({x}, true)]);
    steps := Then(steps, Call);
    steps := Then(steps, Shut(1, x));
    steps := Then(steps, Shut(1, x));
    steps := Then(steps, Shut(1, x));
  }

  /** So `close` keeps its promise to whoever calls it exactly when it is called no more than once. */
  lemma OnlyOneCallIsSafe(n: nat)
    ensures (forall steps :: CallsIn(steps) <= n ==> ReturnedMeansClosed(Exec(Start(), steps))) <==> n <= 1
  {
    if n <= 1 {
      forall steps | CallsIn(steps) <= n
        ensures ReturnedMeansClosed(Exec(Start(), steps))
      {
        OneCallIsEnough(steps);
      }
    } else {
      var steps := SecondCloseMayReturnFirst();
      assert !ReturnedMeansClosed(Exec(Start(), steps));
    }
  }
}
