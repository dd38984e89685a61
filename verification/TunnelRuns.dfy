/**
  What becomes of the connections of a tunnel: each is served while the tunnel is
  open, and every handler and every call of `close` comes to its end, leaving
  nothing behind.
*/
module TunnelRuns {
  import opened GatewayTunnel

  // -------------------------------------------------------------------------
  // The register and the open sockets, exactly
  // -------------------------------------------------------------------------

  /**
    Until a call of `close` empties it, the register holds what handlers have
    registered, and besides at most what they are about to take off.
  */
  predicate IsRegisteredFitly(s: State, x: Sock) {
    if s.sealed then x !in s.active
    else
      && (Registered(s, x) ==> x in s.active)
      && (x in s.active ==> Registered(s, x) || (x.h < |s.handlers| && s.handlers[x.h].Dropping?))
  }

  /** Its handler has still to close the local socket. */
  predicate LocalIsDue(t: Handler) {
    t.Fresh? || t.Connecting? || t.Connected? || t.Splicing? || t.Dropping? || t.ClosingLocal?
  }

  /**
    An upstream socket is open only after its tunnel was opened, and before its
    handler has closed it.  Until a call of `close` is past its critical section,
    a local socket is open exactly as long as its handler has to close it, and so
    is an upstream one that is served.
  */
  predicate IsOpenFitly(s: State, h: nat) {
    if h >= |s.handlers| then Local(h) !in s.live && Upstream(h) !in s.live
    else
      var t := s.handlers[h];
      && (t.Fresh? || t.Connecting? || t.Ended? ==> Upstream(h) !in s.live)
      && (!s.sealed ==>
            && (Local(h) in s.live <==> LocalIsDue(t))
            && (t.Connected? || t.Splicing? ==> Upstream(h) in s.live))
  }

  ghost predicate IsFit(s: State) {
    && (forall x :: IsRegisteredFitly(s, x))
    && (forall h :: IsOpenFitly(s, h))
  }

  lemma OwnStepKeepsFit(s: State, h: nat, opens: bool)
    requires IsFit(s) && Sealed(s) && h < |s.handlers|
    ensures IsFit(Handled(s, h, opens))
  {
    var next := Handled(s, h, opens);
    assert IsOpenFitly(s, h) && IsRegisteredFitly(s, Local(h)) && IsRegisteredFitly(s, Upstream(h));
    forall x ensures IsRegisteredFitly(next, x) {
      assert IsRegisteredFitly(s, x);
      if x.h == h {
        assert x == Local(h) || x == Upstream(h);
      } else {
        HandledIsItsOwn(s, h, opens, x);
      }
    }
    forall k ensures IsOpenFitly(next, k) {
      assert IsOpenFitly(s, k);
      if k != h {
        HandledIsItsOwn(s, h, opens, Local(k));
        HandledIsItsOwn(s, h, opens, Upstream(k));
      }
    }
  }

  lemma CloserKeepsFit(s: State, c: nat, sock: Sock)
    requires IsFit(s) && Sealed(s) && c < |s.closers|
    ensures IsFit(Shutting(s, c, sock))
  {
    var next := Shutting(s, c, sock);
    forall x ensures IsRegisteredFitly(next, x) {
      assert IsRegisteredFitly(s, x);
    }
    forall h ensures IsOpenFitly(next, h) {
      assert IsOpenFitly(s, h);
    }
  }

  lemma AcceptKeepsFit(s: State)
    requires IsFit(s)
    ensures IsFit(Next(s, Accept))
  {
    var next := Next(s, Accept);
    forall x ensures IsRegisteredFitly(next, x) {
      assert IsRegisteredFitly(s, x);
    }
    forall h ensures IsOpenFitly(next, h) {
      assert IsOpenFitly(s, h);
    }
  }

  lemma {:induction false} ExecKeepsFit(steps: seq<Step>)
    ensures IsFit(Exec(Start(), steps))
  {
    if steps != [] {
      var before := steps[..|steps| - 1];
      ExecKeepsFit(before);
      ExecKeepsInv(before);
      var s := Exec(Start(), before);
      hide IsFit, Sealed, Owned, Tracked, ListenerOwned, Handled, Shutting;
      match steps[|steps| - 1]
      case Accept => AcceptKeepsFit(s);
      case Call => CallKeepsFit(s);
      case Go(h, opens) => if h < |s.handlers| { OwnStepKeepsFit(s, h, opens); }
      case Shut(c, sock) => if c < |s.closers| { CloserKeepsFit(s, c, sock); }
    }
  }

  lemma CallKeepsFit(s: State)
    requires IsFit(s)
    ensures IsFit(Next(s, Call))
  {
    var next := Next(s, Call);
    forall x ensures IsRegisteredFitly(next, x) {
      assert IsRegisteredFitly(s, x);
    }
    forall h ensures IsOpenFitly(next, h) {
      assert IsOpenFitly(s, h);
    }
  }

  /** Over any run, what is on the register and what is open is exactly what the handlers make of it. */
  lemma RegisterIsExact(steps: seq<Step>, h: nat)
    ensures var s := Exec(Start(), steps);
            && IsRegisteredFitly(s, Local(h)) && IsRegisteredFitly(s, Upstream(h))
            && IsOpenFitly(s, h)
  {
    ExecKeepsFit(steps);
  }

  // -------------------------------------------------------------------------
  // A connection is served
  // -------------------------------------------------------------------------

  /** A connection whose tunnel opens is served, on both sockets, once its handler has taken three steps. */
  lemma OpenTunnelIsServed(steps: seq<Step>, h: nat)
    requires var s := Exec(Start(), steps); h < |s.handlers| && s.handlers[h].Fresh? && !s.closed
    ensures var s := Exec(Start(), steps);
            var served := Next(Next(Next(s, Go(h, true)), Go(h, true)), Go(h, true));
            && served.handlers[h].Splicing? && {Local(h), Upstream(h)} <= served.live && {Local(h), Upstream(h)} <= served.active
  {
    var s := Exec(Start(), steps);
    ExecKeepsFit(steps);
    ExecKeepsInv(steps);
    assert IsOpenFitly(s, h);
    hide Exec, IsFit, Inv;
    var s1 := Next(s, Go(h, true));
    assert s1 == s.(handlers := s.handlers[h := Connecting], active := s.active + {Local(h)});
    var s2 := Next(s1, Go(h, true));
    assert s2 == s1.(handlers := s.handlers[h := Connected], live := s.live + {Upstream(h)});
    var s3 := Next(s2, Go(h, true));
    assert s3 == s2.(handlers := s.handlers[h := Splicing], active := s2.active + {Upstream(h)});
  }

  /** One whose tunnel does not open, or that comes after the tunnel was closed, is dropped. */
  lemma OthersAreDropped(s: State, h: nat)
    requires h < |s.handlers|
    ensures s.handlers[h].Connecting? ==>
              Next(s, Go(h, false)) == s.(handlers := s.handlers[h := Dropping])
    ensures s.handlers[h].Fresh? && s.closed ==>
              forall opens :: Next(s, Go(h, opens)) == s.(handlers := s.handlers[h := ClosingLocal])
    ensures s.handlers[h].Connected? && s.closed ==>
              forall opens :: Next(s, Go(h, opens)) == s.(handlers := s.handlers[h := Dropping])
  {
  }

  // -------------------------------------------------------------------------
  // Every handler comes to its end
  // -------------------------------------------------------------------------

  /** How many steps a handler has left. */
  function Left(t: Handler): nat {
    match t
    case Fresh => 7
    case Connecting => 6
    case Connected => 5
    case Splicing => 4
    case Dropping => 3
    case ClosingLocal => 2
    case ClosingUpstream => 1
    case Ended => 0
  }

  /** Its own steps are the only ones that move a handler, and each brings it nearer to its end. */
  lemma HandlerGoesOn(s: State, step: Step, h: nat)
    requires h < |s.handlers|
    ensures h < |Next(s, step).handlers|
    ensures if step.Go? && step.h == h && !s.handlers[h].Ended?
            then Left(Next(s, step).handlers[h]) < Left(s.handlers[h])
            else Next(s, step).handlers[h] == s.handlers[h]
  {
  }

  /** The steps that handler `h` takes in a run. */
  function StepsOf(steps: seq<Step>, h: nat): nat {
    if steps == [] then 0
    else StepsOf(steps[..|steps| - 1], h) + if steps[|steps| - 1].Go? && steps[|steps| - 1].h == h then 1 else 0
  }

  lemma {:induction false} HandlerLeft(s: State, steps: seq<Step>, h: nat)
    requires h < |s.handlers|
    ensures h < |Exec(s, steps).handlers|
    ensures Left(Exec(s, steps).handlers[h]) + StepsOf(steps, h) <= Left(s.handlers[h])
            || Exec(s, steps).handlers[h].Ended?
  {
    hide Next, Left;
    if steps != [] {
      HandlerLeft(s, steps[..|steps| - 1], h);
      HandlerGoesOn(Exec(s, steps[..|steps| - 1]), steps[|steps| - 1], h);
      EndedIsLast(Exec(s, steps).handlers[h]);
      EndedIsLast(Exec(s, steps[..|steps| - 1]).handlers[h]);
    }
  }

  lemma EndedIsLast(t: Handler)
    ensures t.Ended? <==> Left(t) == 0
  {
  }

  /**
    However the threads interleave, a handler that takes seven steps has ended;
    and then neither of its sockets is open, or on the register.
  */
  lemma EveryHandlerEnds(before: seq<Step>, after: seq<Step>, h: nat)
    requires h < |Exec(Start(), before).handlers| && StepsOf(after, h) >= 7
    ensures var s := Exec(Exec(Start(), before), after);
            && h < |s.handlers| && s.handlers[h].Ended?
            && Local(h) !in s.live && Upstream(h) !in s.live && Local(h) !in s.active && Upstream(h) !in s.active
  {
    var s := Exec(Start(), before);
    HandlerLeft(s, after, h);
    EndedIsLast(s.handlers[h]);
    ExecInTwo(before, after);
    ExecKeepsFit(before + after);
    ExecKeepsInv(before + after);
    var last := Exec(s, after);
    assert IsRegisteredFitly(last, Local(h)) && IsRegisteredFitly(last, Upstream(h)) && IsOpenFitly(last, h);
    hide Exec;
    assert Left(s.handlers[h]) <= 7;
    assert Local(h) in last.live ==> HasToClose(last, Local(h));
  }

  lemma {:induction false} ExecInTwo(before: seq<Step>, after: seq<Step>)
    ensures Exec(Start(), before + after) == Exec(Exec(Start(), before), after)
  {
    if after == [] {
      assert before + after == before;
    } else {
      assert (before + after)[..|before + after| - 1] == before + after[..|after| - 1];
      ExecInTwo(before, after[..|after| - 1]);
    }
  }

  // -------------------------------------------------------------------------
  // Every call of `close` comes to its end
  // -------------------------------------------------------------------------

  function Stage(closer: Closer): nat {
    match closer
    case Called => 3
    case Flagged => 2
    case Closing(_, _) => 1
    case Returned => 0
  }

  function Rest(closer: Closer): nat {
    if closer.Closing? then |closer.pending| + (if closer.listener then 1 else 0) else 0
  }

  /** Its own steps are the only ones that move a call of `close`, and each brings it nearer to its return. */
  lemma CloserGoesOn(s: State, step: Step, c: nat)
    requires c < |s.closers|
    ensures c < |Next(s, step).closers|
    ensures var now, later := s.closers[c], Next(s, step).closers[c];
            if step.Shut? && step.c == c && Enabled(s, step)
            then Stage(later) < Stage(now) || (Stage(later) == Stage(now) && Rest(later) < Rest(now))
            else later == now
  {
    if step.Go? && step.h < |s.handlers| {
      HandledIsItsOwn(s, step.h, step.opens, Local(step.h + 1));
    }
    hide Handled;
    if !(step.Shut? && step.c == c) {
      hide Rest, Stage;
    }
  }

  /** What it closes is what it took: each socket that was on the register, and the listener. */
  lemma CloserCloses(s: State, c: nat, sock: Sock)
    requires c < |s.closers| && Enabled(s, Shut(c, sock))
    ensures var next := Next(s, Shut(c, sock));
            && (s.closers[c].Called? ==> next.closed && next.closers[c] == Flagged)
            && (s.closers[c].Flagged? ==>
                  next.active == {} && !next.hasListener && next.closers[c] == Closing(s.active, s.hasListener))
            && (s.closers[c].Closing? && s.closers[c].listener ==>
                  !next.listening && next.closers[c] == Closing(s.closers[c].pending, false))
            && (s.closers[c].Closing? && !s.closers[c].listener && s.closers[c].pending != {} ==>
                  sock !in next.live && next.closers[c] == Closing(s.closers[c].pending - {sock}, false))
            && (s.closers[c].Closing? && !s.closers[c].listener && s.closers[c].pending == {} ==>
                  next == s.(closers := s.closers[c := Returned]))
  {
  }

  // -------------------------------------------------------------------------
  // Nothing is accepted after `close`
  // -------------------------------------------------------------------------

  lemma {:induction false} ListenerStaysClosed(s: State, steps: seq<Step>)
    requires !s.listening
    ensures !Exec(s, steps).listening && |Exec(s, steps).handlers| == |s.handlers|
  {
    hide Handled;
    if steps != [] {
      ListenerStaysClosed(s, steps[..|steps| - 1]);
      KeepsCount(Exec(s, steps[..|steps| - 1]), steps[|steps| - 1]);
    }
  }

  lemma KeepsCount(s: State, step: Step)
    requires !s.listening
    ensures |Next(s, step).handlers| == |s.handlers| && !Next(s, step).listening
  {
  }

  /** Once every call of `close` that took anything has returned, no connection is accepted ever again. */
  lemma NothingIsAcceptedAfterClose(before: seq<Step>, after: seq<Step>)
    requires var s := Exec(Start(), before); s.sealed && NoneClosing(s)
    ensures var s := Exec(Start(), before);
            |Exec(s, after).handlers| == |s.handlers|
  {
    CloseLeavesNothing(before, Local(0));
    ListenerStaysClosed(Exec(Start(), before), after);
  }
}
