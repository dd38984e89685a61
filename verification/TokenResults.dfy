/**
  What the callers of the token refresh get back, and what the store keeps.  The
  story of a call is told from outside: what it read and when, what came back
  for it, and what kept it from refreshing.
*/
module TokenResults {
  import opened Options
  import opened TokenRefresh

  // -------------------------------------------------------------------------
  // The story of a call
  // -------------------------------------------------------------------------

  /**
    What a thread has lived through in its call.  `entry`: the session it last
    read, and `readAt` when.  `looked`: when it last looked at that session's
    token.  `brought`: the token its own request brought.  `gaveUp`: it may not
    refresh, or the server is known to be down, or there is no cookie to spend,
    or its request failed.  `tries`: the requests it sent.
  */
  datatype Story =
    | NoCall
    | Story(call: Call, entry: Option<Entry>, readAt: real, looked: real, brought: Option<Token>, gaveUp: bool, tries: nat)

  function Stored(store: Store, url: string): Option<Entry> {
    if url in store.servers then Some(store.servers[url]) else None
  }

  /** A request that comes to an end; one refused at once is tried a second time. */
  function Ends(story: Story, outcome: Outcome): Story
    requires story.Story?
  {
    match outcome
    case Success(token, _) => story.(brought := Some(token))
    case NotReached(fast) => if fast && story.tries < 2 then story else story.(gaveUp := true)
    case Unclear(_) => story.(gaveUp := true)
  }

  function Sees(story: Story, s: State, t: Thread): Story
    requires story.Story?
  {
    var url := story.call.url;
    if t.Reading? || t.Locked? then
      story.(entry := Stored(s.store, url), readAt := s.clock, looked := s.clock)
    else if t.Unsure? then
      story.(looked := s.clock, gaveUp := story.gaveUp || !story.call.mayRefresh || url in s.failed)
    else if t.Reread? then
      story.(looked := s.clock, gaveUp := story.gaveUp || url in s.failed || t.entry.cookie.None?)
    else if t.Ready? && t.entry.cookie.Some? then story.(tries := story.tries + 1)
    else if t.Ready? then story.(gaveUp := true)
    else if t.Failing? then story.(looked := s.clock)
    else story
  }

  function Told(story: Story, s: State, step: Step, i: nat): Story {
    if !Enabled(s, step) || !step.Go? || step.i != i then story
    else
      match step.move
      case Begin(call) => Story(call, None, s.clock, s.clock, None, false, 0)
      case BeginRecord(_, _) => NoCall
      case Arrive(outcome) => if story.NoCall? then story else Ends(story, outcome)
      case Advance => if story.NoCall? then story else Sees(story, s, s.threads[i])
  }

  function StoryOf(start: State, steps: seq<Step>, i: nat): Story {
    if steps == [] then NoCall
    else
      var n := |steps| - 1;
      Told(StoryOf(start, steps[..n], i), Exec(start, steps[..n]), steps[n], i)
  }

  // -------------------------------------------------------------------------
  // What a call returns
  // -------------------------------------------------------------------------

  /**
    The token that the call's own request brought, if it did.  Otherwise the
    stored one: good by the caller's margin when it was read, or, if the call
    gave up, at least unexpired when last looked at.  Otherwise none: there is
    no session, or the call gave up and the stored token is missing or expired.
  */
  ghost predicate Answers(story: Story, result: Option<Token>)
    requires story.Story?
  {
    && (story.brought.Some? ==> result == story.brought)
    && (story.brought.None? && result.Some? ==>
          && story.entry.Some? && story.entry.value.token == result
          && result.value.expires > story.looked
          && (!story.gaveUp ==> Fresh(result.value, story.call.fraction, story.readAt)))
    && (story.brought.None? && result.None? ==>
          || story.entry.None?
          || (story.gaveUp && (story.entry.value.token.None? || story.entry.value.token.value.expires <= story.looked)))
  }

  /** The entry that the call goes by is the one it last read, and its token is not good enough. */
  ghost predicate GoesBy(story: Story, entry: Entry)
    requires story.Story?
  {
    && entry == (if story.entry.Some? then story.entry.value else Entry(None, None))
    && !HasFresh(entry, story.call.fraction, story.readAt)
  }

  ghost predicate Untroubled(story: Story, tries: nat)
    requires story.Story?
  {
    story.brought.None? && !story.gaveUp && story.tries == tries
  }

  /** A thread is where its story has brought it. */
  ghost predicate Fits(t: Thread, story: Story) {
    match t
    case Reading(call) => story.Story? && story.call == call && Untroubled(story, 0)
    case Unsure(call, entry) =>
      && story.Story? && story.call == call && Untroubled(story, 0)
      && story.entry == Some(entry) && GoesBy(story, entry)
    case Waiting(call) => story.Story? && story.call == call && call.mayRefresh && Untroubled(story, 0)
    case Locked(call) => story.Story? && story.call == call && call.mayRefresh && Untroubled(story, 0)
    case Reread(call, entry, _) =>
      story.Story? && story.call == call && call.mayRefresh && Untroubled(story, 0) && GoesBy(story, entry)
    case Ready(call, entry, _, retried) =>
      && story.Story? && story.call == call && call.mayRefresh
      && Untroubled(story, if retried then 1 else 0) && GoesBy(story, entry) && entry.cookie.Some?
    case InFlight(call, entry, _, retried) =>
      && story.Story? && story.call == call && call.mayRefresh
      && Untroubled(story, if retried then 2 else 1) && GoesBy(story, entry) && entry.cookie.Some?
    case WantsStore(call, token, _) => story.Story? && story.call == call && story.brought == Some(token)
    case HasStore(call, token, _) => story.Story? && story.call == call && story.brought == Some(token)
    case Loaded(call, token, _, _) => story.Story? && story.call == call && story.brought == Some(token)
    case Written(call, token) => story.Story? && story.call == call && story.brought == Some(token)
    case Failing(call, entry) =>
      story.Story? && story.call == call && story.brought.None? && story.gaveUp && GoesBy(story, entry)
    case Unlocking(call, result) => story.Story? && story.call == call && Answers(story, result)
    case Done(result) => story.Story? ==> Answers(story, result)
    case _ => story.NoCall?
  }

  lemma GoodIsUnexpired(token: Token, fraction: Option<real>, now: real)
    ensures Fresh(token, fraction, now) ==> token.expires > now
  {
    hide Share;
  }

  lemma SeesFits(s: State, i: nat, story: Story)
    requires i < |s.threads| && CanAdvance(s, s.threads[i]) && story.Story? && Fits(s.threads[i], story)
    ensures Fits(Advanced(s, i).threads[i], Sees(story, s, s.threads[i]))
  {
    hide Fresh, Accepted;
    forall token, fraction, now ensures Fresh(token, fraction, now) ==> token.expires > now {
      GoodIsUnexpired(token, fraction, now);
    }
  }

  lemma EndsFits(s: State, i: nat, story: Story, outcome: Outcome)
    requires i < |s.threads| && s.threads[i].InFlight? && Fits(s.threads[i], story)
    ensures Fits(Arrived(s, i, outcome).threads[i], Ends(story, outcome))
  {
    hide HasFresh, Accepted, LastToken;
  }

  lemma RecordFits(s: State, i: nat)
    requires i < |s.threads| && CanAdvance(s, s.threads[i]) && Fits(s.threads[i], NoCall)
    ensures Fits(Advanced(s, i).threads[i], NoCall)
  {
  }

  /** A step of one thread leaves the others where they are. */
  lemma OnlyItsOwn(s: State, i: nat, move: Move)
    requires Enabled(s, Go(i, move))
    ensures |Next(s, Go(i, move)).threads| == |s.threads|
    ensures forall j :: 0 <= j < |s.threads| && j != i ==> Next(s, Go(i, move)).threads[j] == s.threads[j]
  {
    hide Advanced, Arrived, Left;
    match move
    case Begin(_) =>
    case BeginRecord(_, _) =>
    case Arrive(outcome) => ArrivalIsProgress(s, i, outcome);
    case Advance =>
      if s.threads[i].WantsStore? || s.threads[i].RecordWantsStore? || Storing(s.threads[i]) {
        StoringIsProgress(s, i);
      } else {
        ReadingIsProgress(s, i);
      }
  }

  lemma ToldFits(s: State, step: Step, i: nat, story: Story)
    requires i < |s.threads| && Fits(s.threads[i], story)
    ensures i < |Next(s, step).threads| && Fits(Next(s, step).threads[i], Told(story, s, step, i))
  {
    hide Advanced, Arrived, Sees, Ends, Answers, GoesBy, CanAdvance;
    if Enabled(s, step) && step.Go? {
      OnlyItsOwn(s, step.i, step.move);
      if step.i == i {
        match step.move
        case Begin(_) =>
        case BeginRecord(_, _) =>
        case Arrive(outcome) => EndsFits(s, i, story, outcome);
        case Advance =>
          if story.NoCall? {
            RecordFits(s, i);
          } else {
            SeesFits(s, i, story);
          }
      }
    }
  }

  lemma {:induction false} StoryFits(
      n: nat, store: Store, current: map<string, nat>, clock: real, steps: seq<Step>, i: nat)
    requires i < n
    ensures var s := Exec(Start(n, store, current, clock), steps);
            i < |s.threads| && Fits(s.threads[i], StoryOf(Start(n, store, current, clock), steps, i))
  {
    hide Next, Told, Fits;
    var start := Start(n, store, current, clock);
    if steps == [] {
      IdleFits();
    } else {
      var k := |steps| - 1;
      StoryFits(n, store, current, clock, steps[..k], i);
      ToldFits(Exec(start, steps[..k]), steps[k], i, StoryOf(start, steps[..k], i));
    }
  }

  lemma IdleFits()
    ensures Fits(Idle, NoCall)
  {
  }

  /** Whatever the interleaving, every call returns what its story warrants. */
  lemma CallReturns(n: nat, store: Store, current: map<string, nat>, clock: real, steps: seq<Step>, i: nat)
    requires i < n && StoryOf(Start(n, store, current, clock), steps, i).Story?
    requires var s := Exec(Start(n, store, current, clock), steps); i < |s.threads| && s.threads[i].Done?
    ensures Answers(StoryOf(Start(n, store, current, clock), steps, i),
                    Exec(Start(n, store, current, clock), steps).threads[i].result)
  {
    StoryFits(n, store, current, clock, steps, i);
  }

  /**
    Only a call that may refresh, and found the stored token not good enough
    after it had waited its turn, asks the server; and at most twice.
  */
  lemma AsksOnlyIfItMay(n: nat, store: Store, current: map<string, nat>, clock: real, steps: seq<Step>, i: nat)
    requires i < n
    requires var s := Exec(Start(n, store, current, clock), steps); i < |s.threads| && s.threads[i].InFlight?
    ensures var story := StoryOf(Start(n, store, current, clock), steps, i);
            && story.Story? && story.call.mayRefresh && 1 <= story.tries <= 2
            && story.entry.Some?
            && (story.entry.value.token.Some? ==> !Fresh(story.entry.value.token.value, story.call.fraction, story.readAt))
  {
    StoryFits(n, store, current, clock, steps, i);
  }

  // -------------------------------------------------------------------------
  // What the store keeps
  // -------------------------------------------------------------------------

  /** The boxes that have been noted, one after the other. */
  function BoxesNoted(start: State, steps: seq<Step>): map<string, string> {
    if steps == [] then start.store.boxes
    else
      var n := |steps| - 1;
      var before, s, step := BoxesNoted(start, steps[..n]), Exec(start, steps[..n]), steps[n];
      if Enabled(s, step) && step.Go? && step.move.Advance? && s.threads[step.i].RecordLoaded?
      then before[s.threads[step.i].box := s.threads[step.i].url]
      else before
  }

  ghost predicate Keeps(start: State, s: State, boxes: map<string, string>) {
    && s.store.boxes == boxes
    && forall url :: LastToken(s.trips, url).None? ==> Stored(s.store, url) == Stored(start.store, url)
  }

  lemma SavingKeeps(start: State, s: State, i: nat)
    requires Inv(s) && Keeps(start, s, s.store.boxes) && i < |s.threads| && CanAdvance(s, s.threads[i])
    requires !s.threads[i].RecordLoaded?
    ensures Keeps(start, Advanced(s, i), s.store.boxes)
  {
    assert ThreadInv(s, s.threads[i]);
    hide HasFresh, Unexpired, EntryOf, Accepted, LastToken, Inv;
  }

  lemma RecordingKeeps(start: State, s: State, i: nat)
    requires Inv(s) && Keeps(start, s, s.store.boxes) && i < |s.threads| && s.threads[i].RecordLoaded?
    ensures Keeps(start, Advanced(s, i), s.store.boxes[s.threads[i].box := s.threads[i].url])
  {
    assert ThreadInv(s, s.threads[i]);
    hide HasFresh, Unexpired, EntryOf, Accepted, LastToken, Inv;
  }

  lemma ArrivingKeeps(start: State, s: State, i: nat, outcome: Outcome)
    requires Keeps(start, s, s.store.boxes) && i < |s.threads| && s.threads[i].InFlight?
    ensures Keeps(start, Arrived(s, i, outcome), s.store.boxes)
  {
    hide LastToken;
    var next := Arrived(s, i, outcome);
    forall url | LastToken(next.trips, url).None? ensures LastToken(s.trips, url).None? {
      if |next.trips| > |s.trips| {
        assert next.trips == s.trips + [next.trips[|s.trips|]];
        LastTokenAfter(s.trips, next.trips[|s.trips|], url);
      }
    }
  }

  /**
    Whatever the threads write at one time, the store loses nothing: each box
    is under the server it was last noted with, and a session whose server
    granted no refresh is as it was at the start.
  */
  lemma {:induction false} StoreLosesNothing(n: nat, store: Store, current: map<string, nat>, clock: real, steps: seq<Step>)
    requires InSync(store, current)
    ensures var start := Start(n, store, current, clock);
            Keeps(start, Exec(start, steps), BoxesNoted(start, steps))
  {
    var start := Start(n, store, current, clock);
    if steps != [] {
      var k := |steps| - 1;
      StoreLosesNothing(n, store, current, clock, steps[..k]);
      ExecKeepsInv(n, store, current, clock, steps[..k]);
      var s, step := Exec(start, steps[..k]), steps[k];
      hide Inv, Advanced, Arrived, LastToken, CanAdvance;
      if Enabled(s, step) && step.Go? {
        match step.move
        case Begin(_) =>
        case BeginRecord(_, _) =>
        case Arrive(outcome) => ArrivingKeeps(start, s, step.i, outcome);
        case Advance =>
          if s.threads[step.i].RecordLoaded? {
            RecordingKeeps(start, s, step.i);
          } else {
            SavingKeeps(start, s, step.i);
          }
      }
    }
  }

  // -------------------------------------------------------------------------
  // The session that a refresh leaves
  // -------------------------------------------------------------------------

  /** A refresh was granted, and is about to be stored. */
  predicate IsSaving(s: State, url: string) {
    && url in s.refreshOwner && s.refreshOwner[url] < |s.threads|
    && var t := s.threads[s.refreshOwner[url]];
       t.WantsStore? || t.HasStore? || t.Loaded?
  }

  predicate HasCookie(s: State, url: string) {
    url in s.store.servers && s.store.servers[url].cookie.Some?
  }

  /** A server that granted a refresh has a cookie in the store, or will have one at once. */
  ghost predicate Sustained(s: State) {
    forall url :: LastToken(s.trips, url).Some? ==> IsSaving(s, url) || HasCookie(s, url)
  }

  /** The thread that holds a server's refresh lock, if any does. */
  lemma OwnerIs(s: State, i: nat)
    requires RefreshLocks(s) && i < |s.threads| && Refreshing(s.threads[i])
    ensures s.threads[i].call.url in s.refreshOwner && s.refreshOwner[s.threads[i].call.url] == i
  {
  }

  lemma AdvanceSustains(s: State, i: nat)
    requires RefreshLocks(s) && Sustained(s) && i < |s.threads| && CanAdvance(s, s.threads[i])
    requires s.threads[i].Loaded? || s.threads[i].RecordLoaded? ==> s.threads[i].snapshot == s.store
    ensures Sustained(Advanced(s, i))
  {
    var t, next := s.threads[i], Advanced(s, i);
    assert next.trips == s.trips;
    if Refreshing(t) {
      OwnerIs(s, i);
    }
    forall url | LastToken(next.trips, url).Some?
      ensures IsSaving(next, url) || HasCookie(next, url)
    {
      assert IsSaving(s, url) || HasCookie(s, url);
      hide HasFresh, Unexpired, EntryOf, Accepted, LastToken, Sustained;
      if IsSaving(s, url) && !HasCookie(next, url) {
        var k := s.refreshOwner[url];
        assert s.threads[k].call.url == url && (k != i ==> next.threads[k] == s.threads[k]);
      }
    }
  }

  lemma ArriveSustains(s: State, i: nat, outcome: Outcome)
    requires RefreshLocks(s) && Sustained(s) && i < |s.threads| && s.threads[i].InFlight?
    ensures Sustained(Arrived(s, i, outcome))
  {
    hide LastToken;
    var t, next := s.threads[i], Arrived(s, i, outcome);
    OwnerIs(s, i);
    forall url | LastToken(next.trips, url).Some?
      ensures IsSaving(next, url) || HasCookie(next, url)
    {
      if |next.trips| > |s.trips| {
        assert next.trips == s.trips + [next.trips[|s.trips|]];
        LastTokenAfter(s.trips, next.trips[|s.trips|], url);
      }
      if url != t.call.url && LastToken(s.trips, url).Some? && IsSaving(s, url) {
        assert s.refreshOwner[url] != i;
      }
    }
  }

  lemma BeginSustains(s: State, i: nat, t: Thread)
    requires RefreshLocks(s) && Sustained(s) && i < |s.threads| && Finished(s.threads[i])
    ensures Sustained(Put(s, i, t))
  {
    hide LastToken;
    var next := Put(s, i, t);
    forall url | LastToken(s.trips, url).Some?
      ensures IsSaving(next, url) || HasCookie(next, url)
    {
    }
  }

  lemma {:induction false} ExecSustains(n: nat, store: Store, current: map<string, nat>, clock: real, steps: seq<Step>)
    requires InSync(store, current)
    ensures Sustained(Exec(Start(n, store, current, clock), steps))
  {
    if steps != [] {
      var k := |steps| - 1;
      ExecSustains(n, store, current, clock, steps[..k]);
      ExecKeepsInv(n, store, current, clock, steps[..k]);
      var s, step := Exec(Start(n, store, current, clock), steps[..k]), steps[k];
      if step.Go? && Enabled(s, step) {
        assert ThreadInv(s, s.threads[step.i]);
      }
      hide Sustained, Advanced, Arrived, LastToken, CanAdvance, Sessions, Tokens, Memo, NoRepeats, Needed, OnlyAccepted, RefreshLocks;
      if Enabled(s, step) {
        match step
        case Tick(now) => ClockSustains(s, now);
        case Go(i, move) =>
          match move
          case Begin(call) => BeginSustains(s, i, Reading(call));
          case BeginRecord(box, url) => BeginSustains(s, i, RecordWantsStore(box, url));
          case Arrive(outcome) => ArriveSustains(s, i, outcome);
          case Advance => AdvanceSustains(s, i);
      }
    }
  }

  lemma ClockSustains(s: State, now: real)
    requires Sustained(s)
    ensures Sustained(s.(clock := now))
  {
  }

  /**
    Over any run: a server that granted a refresh, and is neither being settled
    nor known to be down, has the token it granted last in the store, with the
    cookie that it takes now.
  */
  lemma RefreshedSessionIsStored(n: nat, store: Store, current: map<string, nat>, clock: real, steps: seq<Step>, url: string)
    requires InSync(store, current)
    requires var s := Exec(Start(n, store, current, clock), steps);
      LastToken(s.trips, url).Some? && !BeingSettled(s, url) && url !in s.failed
    ensures var s := Exec(Start(n, store, current, clock), steps);
            url in s.store.servers && s.store.servers[url] == Entry(LastToken(s.trips, url), Some(Accepted(s, url)))
  {
    ExecSustains(n, store, current, clock, steps);
    ExecKeepsInv(n, store, current, clock, steps);
    hide Exec, LastToken, Accepted;
  }

  /** The cookie that a server takes changes exactly when a request made it replace it. */
  lemma OnlyARequestRotates(s: State, step: Step, url: string)
    ensures Accepted(Next(s, step), url) != Accepted(s, url) <==>
              && Enabled(s, step) && step.Go? && step.move.Arrive? && s.threads[step.i].call.url == url
              && !step.move.outcome.NotReached? && step.move.outcome.rotated
  {
    hide HasFresh, Unexpired, EntryOf, LastToken;
  }
}
