/**
  Single-flight refresh of access tokens.

  Threads of one process ask for tokens of several auth servers.  A token that
  is good enough is read without a lock; otherwise the thread takes that
  server's refresh lock, reads again, and only then spends the session cookie,
  which the server replaces each time.  The store is read and written as a
  whole, under a lock of its own that threads recording boxes also take.
*/
module TokenRefresh {
  import opened Options

  const EXPIRY_MARGIN := 60.0

  /** A bearer token: when it expires, and for how long it was issued, where it says so. */
  datatype Token = Token(expires: real, lifetime: Option<real>)

  /** A session: its access token, and the cookie that buys the next one. */
  datatype Entry = Entry(token: Option<Token>, cookie: Option<nat>)

  datatype Store = Store(servers: map<string, Entry>, boxes: map<string, string>)

  datatype Call = Call(url: string, mayRefresh: bool, fraction: Option<real>)

  // -------------------------------------------------------------------------
  // When a token is good enough
  // -------------------------------------------------------------------------

  function Max(a: real, b: real): real {
    if a < b then b else a
  }

  function Min(a: real, b: real): real {
    if a < b then a else b
  }

  /** The lifetime counts only when it is positive. */
  function StatedLifetime(token: Token): Option<real> {
    if token.lifetime.Some? && token.lifetime.value > 0.0 then token.lifetime else None
  }

  function RefreshMargin(token: Token): real {
    match StatedLifetime(token)
    case None => EXPIRY_MARGIN
    case Some(lifetime) => Min(EXPIRY_MARGIN, Max(lifetime / 4.0, 1.0))
  }

  function Share(whole: real, fraction: real): real {
    whole * fraction
  }

  /** A caller may ask for a fraction of the lifetime to be left. */
  function Margin(token: Token, fraction: Option<real>): real {
    if fraction.Some? && StatedLifetime(token).Some?
    then Max(RefreshMargin(token), Share(StatedLifetime(token).value, fraction.value))
    else RefreshMargin(token)
  }

  predicate Fresh(token: Token, fraction: Option<real>, now: real) {
    token.expires > now + Margin(token, fraction)
  }

  predicate HasFresh(entry: Entry, fraction: Option<real>, now: real) {
    entry.token.Some? && Fresh(entry.token.value, fraction, now)
  }

  /** The token as a last resort: any that has not expired. */
  function Unexpired(entry: Entry, now: real): Option<Token> {
    if entry.token.Some? && entry.token.value.expires > now then entry.token else None
  }

  /**
    When a token is good enough: more than a minute before it expires; or, if it
    states its lifetime, more than a quarter of that, but no less than a second
    and no more than a minute; and more than the fraction that the caller asks
    to be left.
  */
  lemma FreshIff(token: Token, fraction: Option<real>, now: real)
    ensures var left := token.expires - now;
            if token.lifetime.None? || token.lifetime.value <= 0.0 then
              Fresh(token, fraction, now) <==> left > 60.0
            else
              var lifetime := token.lifetime.value;
              Fresh(token, fraction, now) <==>
                && (lifetime < 4.0 ==> left > 1.0)
                && (4.0 <= lifetime <= 240.0 ==> 4.0 * left > lifetime)
                && (lifetime > 240.0 ==> left > 60.0)
                && (fraction.Some? ==> left > lifetime * fraction.value)
  {
  }

  /**
    A token that has just been issued, for a stated lifetime, is good enough
    exactly when it lives longer than a second, and longer than the caller asks
    to be left.  Otherwise every call would refresh.
  */
  lemma FreshWhenIssued(token: Token, fraction: Option<real>, now: real)
    requires token.lifetime.Some? && token.lifetime.value > 0.0 && token.expires == now + token.lifetime.value
    ensures Fresh(token, fraction, now) <==> token.lifetime.value > 1.0 && (fraction.Some? ==> fraction.value < 1.0)
  {
    if fraction.Some? {
      ShareIsLess(token.lifetime.value, fraction.value);
    }
    hide Share;
  }

  lemma ShareIsLess(whole: real, fraction: real)
    requires whole > 0.0
    ensures Share(whole, fraction) < whole <==> fraction < 1.0
  {
    if fraction < 1.0 {
      assert whole * (1.0 - fraction) > 0.0;
    } else {
      assert whole * (fraction - 1.0) >= 0.0;
    }
  }

  // -------------------------------------------------------------------------
  // The threads
  // -------------------------------------------------------------------------

  datatype Thread =
    | Idle
    | Reading(call: Call)                                             // without a lock
    | Unsure(call: Call, entry: Entry)                                // the token was not good enough
    | Waiting(call: Call)                                             // for the refresh lock
    | Locked(call: Call)                                              // from here on it holds that lock
    | Reread(call: Call, entry: Entry, checked: real)
    | Ready(call: Call, entry: Entry, checked: real, retried: bool)
    | InFlight(call: Call, entry: Entry, checked: real, retried: bool)
    | WantsStore(call: Call, token: Token, cookie: nat)
    | HasStore(call: Call, token: Token, cookie: nat)
    | Loaded(call: Call, token: Token, cookie: nat, snapshot: Store)
    | Written(call: Call, token: Token)
    | Failing(call: Call, entry: Entry)
    | Unlocking(call: Call, result: Option<Token>)
    | Done(result: Option<Token>)
    | RecordWantsStore(box: string, url: string)                      // noting which server a box belongs to
    | RecordHasStore(box: string, url: string)
    | RecordLoaded(box: string, url: string, snapshot: Store)
    | RecordWritten

  /** What becomes of a refresh request.  Only the last two can have reached the server. */
  datatype Outcome =
    | NotReached(fast: bool)                       // a refused connection, or one that timed out
    | Unclear(rotated: bool)                       // no answer, or one without a token
    | Success(token: Token, rotated: bool)

  /** A refresh that reached an outcome; `previous` is the token the last good one brought. */
  datatype Trip = Trip(url: string, checked: real, fraction: Option<real>, previous: Option<Token>, result: Option<Token>)

  /** A cookie that was sent, and the one that the server would have taken. */
  datatype Sent = Sent(url: string, cookie: nat, accepted: nat)

  datatype State = State(
    threads: seq<Thread>,
    store: Store,
    storeOwner: Option<nat>,
    refreshOwner: map<string, nat>,
    failed: set<string>,
    current: map<string, nat>,
    clock: real,
    sent: seq<Sent>,
    trips: seq<Trip>)

  datatype Move =
    | Begin(call: Call)
    | BeginRecord(box: string, url: string)
    | Advance
    | Arrive(outcome: Outcome)

  datatype Step = Tick(now: real) | Go(i: nat, move: Move)

  function EntryOf(store: Store, url: string): Entry {
    if url in store.servers then store.servers[url] else Entry(None, None)
  }

  /** The cookie that the server takes now. */
  function Accepted(s: State, url: string): nat {
    if url in s.current then s.current[url] else 0
  }

  function LastToken(trips: seq<Trip>, url: string): Option<Token> {
    if trips == [] then None
    else
      var last := trips[|trips| - 1];
      if last.url == url && last.result.Some? then last.result else LastToken(trips[..|trips| - 1], url)
  }

  /** The thread holds the refresh lock of its server. */
  predicate Refreshing(t: Thread) {
    || t.Locked? || t.Reread? || t.Ready? || t.InFlight? || t.WantsStore? || t.HasStore? || t.Loaded?
    || t.Written? || t.Failing? || t.Unlocking?
  }

  predicate Storing(t: Thread) {
    t.HasStore? || t.Loaded? || t.Written? || t.RecordHasStore? || t.RecordLoaded? || t.RecordWritten?
  }

  predicate Finished(t: Thread) {
    t.Idle? || t.Done?
  }

  predicate CanAdvance(s: State, t: Thread) {
    match t
    case Idle => false
    case Done(_) => false
    case InFlight(_, _, _, _) => false
    case Waiting(call) => call.url !in s.refreshOwner
    case WantsStore(_, _, _) => s.storeOwner.None?
    case RecordWantsStore(_, _) => s.storeOwner.None?
    case _ => true
  }

  predicate Enabled(s: State, step: Step) {
    match step
    case Tick(now) => s.clock <= now
    case Go(i, move) =>
      i < |s.threads| &&
      match move
      case Begin(_) => Finished(s.threads[i])
      case BeginRecord(_, _) => Finished(s.threads[i])
      case Advance => CanAdvance(s, s.threads[i])
      case Arrive(_) => s.threads[i].InFlight?
  }

  function Put(s: State, i: nat, t: Thread): State
    requires i < |s.threads|
  {
    s.(threads := s.threads[i := t])
  }

  /** The next thing a thread does, when it does not wait for the network. */
  function Advanced(s: State, i: nat): State
    requires i < |s.threads| && CanAdvance(s, s.threads[i])
  {
    match s.threads[i]
    case Reading(call) =>
      Put(s, i,
          if call.url !in s.store.servers then Done(None)
          else
            var entry := s.store.servers[call.url];
            if HasFresh(entry, call.fraction, s.clock) then Done(entry.token) else Unsure(call, entry))
    case Unsure(call, entry) =>
      Put(s, i, if !call.mayRefresh || call.url in s.failed then Done(Unexpired(entry, s.clock)) else Waiting(call))
    case Waiting(call) =>
      Put(s.(refreshOwner := s.refreshOwner[call.url := i]), i, Locked(call))
    case Locked(call) =>
      var entry := EntryOf(s.store, call.url);
      Put(s, i, if HasFresh(entry, call.fraction, s.clock) then Unlocking(call, entry.token) else Reread(call, entry, s.clock))
    case Reread(call, entry, checked) =>
      Put(s, i,
          if call.url in s.failed then Unlocking(call, Unexpired(entry, s.clock))
          else if entry.cookie.None? then Failing(call, entry)
          else Ready(call, entry, checked, false))
    case Ready(call, entry, checked, retried) =>
      if entry.cookie.None? then Put(s, i, Failing(call, entry))
      else
        Put(s.(sent := s.sent + [Sent(call.url, entry.cookie.value, Accepted(s, call.url))]), i,
            InFlight(call, entry, checked, retried))
    case WantsStore(call, token, cookie) => Put(s.(storeOwner := Some(i)), i, HasStore(call, token, cookie))
    case HasStore(call, token, cookie) => Put(s, i, Loaded(call, token, cookie, s.store))
    case Loaded(call, token, cookie, snapshot) =>
      var servers := snapshot.servers[call.url := Entry(Some(token), Some(cookie))];
      Put(s.(store := snapshot.(servers := servers)), i, Written(call, token))
    case Written(call, token) => Put(s.(storeOwner := None), i, Unlocking(call, Some(token)))
    case Failing(call, entry) =>
      Put(s.(failed := s.failed + {call.url}), i, Unlocking(call, Unexpired(entry, s.clock)))
    case Unlocking(call, result) =>
      Put(s.(refreshOwner := s.refreshOwner - {call.url}), i, Done(result))
    case RecordWantsStore(box, url) => Put(s.(storeOwner := Some(i)), i, RecordHasStore(box, url))
    case RecordHasStore(box, url) => Put(s, i, RecordLoaded(box, url, s.store))
    case RecordLoaded(box, url, snapshot) =>
      if box in snapshot.boxes && snapshot.boxes[box] == url then Put(s, i, RecordWritten)
      else Put(s.(store := snapshot.(boxes := snapshot.boxes[box := url])), i, RecordWritten)
    case RecordWritten => Put(s.(storeOwner := None), i, Done(None))
  }

  function Rotate(s: State, url: string, rotated: bool): State {
    if rotated then s.(current := s.current[url := Accepted(s, url) + 1]) else s
  }

  function Recorded(s: State, t: Thread, result: Option<Token>): State
    requires t.InFlight?
  {
    s.(trips := s.trips + [Trip(t.call.url, t.checked, t.call.fraction, LastToken(s.trips, t.call.url), result)])
  }

  /** A request comes to its end.  Only a connection refused at once is tried again, and only once. */
  function Arrived(s: State, i: nat, outcome: Outcome): State
    requires i < |s.threads| && s.threads[i].InFlight?
  {
    var t := s.threads[i];
    match outcome
    case NotReached(fast) =>
      if fast && !t.retried then Put(s, i, Ready(t.call, t.entry, t.checked, true))
      else Put(Recorded(s, t, None), i, Failing(t.call, t.entry))
    case Unclear(rotated) =>
      Put(Recorded(Rotate(s, t.call.url, rotated), t, None), i, Failing(t.call, t.entry))
    case Success(token, rotated) =>
      var after := Rotate(s, t.call.url, rotated);
      Put(Recorded(after, t, Some(token)), i, WantsStore(t.call, token, Accepted(after, t.call.url)))
  }

  /** A step that is not enabled changes nothing. */
  function Next(s: State, step: Step): State {
    if !Enabled(s, step) then s
    else
      match step
      case Tick(now) => s.(clock := now)
      case Go(i, move) =>
        match move
        case Begin(call) => Put(s, i, Reading(call))
        case BeginRecord(box, url) => Put(s, i, RecordWantsStore(box, url))
        case Advance => Advanced(s, i)
        case Arrive(outcome) => Arrived(s, i, outcome)
  }

  /** The process starts with sessions that its servers accept. */
  predicate InSync(store: Store, current: map<string, nat>) {
    forall url :: url in store.servers && store.servers[url].cookie.Some? ==>
      url in current && current[url] == store.servers[url].cookie.value
  }

  function Start(n: nat, store: Store, current: map<string, nat>, clock: real): State {
    State(seq(n, _ => Idle), store, None, map[], {}, current, clock, [], [])
  }

  function Exec(s: State, steps: seq<Step>): State {
    if steps == [] then s else Next(Exec(s, steps[..|steps| - 1]), steps[|steps| - 1])
  }

  // -------------------------------------------------------------------------
  // The invariant
  // -------------------------------------------------------------------------

  ghost predicate RefreshLocks(s: State) {
    && (forall i :: 0 <= i < |s.threads| && Refreshing(s.threads[i]) ==>
          s.threads[i].call.url in s.refreshOwner && s.refreshOwner[s.threads[i].call.url] == i)
    && (forall url :: url in s.refreshOwner ==>
          && s.refreshOwner[url] < |s.threads|
          && Refreshing(s.threads[s.refreshOwner[url]])
          && s.threads[s.refreshOwner[url]].call.url == url)
  }

  ghost predicate StoreLock(s: State) {
    && (forall i :: 0 <= i < |s.threads| && Storing(s.threads[i]) ==> s.storeOwner == Some(i))
    && (s.storeOwner.Some? ==> s.storeOwner.value < |s.threads| && Storing(s.threads[s.storeOwner.value]))
  }

  /** Between its outcome and the store: the one time a session may lag behind its server. */
  predicate Unsettled(t: Thread) {
    t.WantsStore? || t.HasStore? || t.Loaded? || t.Failing?
  }

  predicate BeingSettled(s: State, url: string) {
    url in s.refreshOwner && s.refreshOwner[url] < |s.threads| && Unsettled(s.threads[s.refreshOwner[url]])
  }

  /** Every stored cookie is the one its server takes, or no one will send it again. */
  ghost predicate Sessions(s: State) {
    forall url :: url in s.store.servers && s.store.servers[url].cookie.Some? ==>
      url in s.failed || BeingSettled(s, url) || s.store.servers[url].cookie.value == Accepted(s, url)
  }

  /** What a thread knows still holds. */
  ghost predicate ThreadInv(s: State, t: Thread) {
    && (t.Reread? || t.Ready? || t.InFlight? || t.Failing? ==> t.entry == EntryOf(s.store, t.call.url))
    && (t.Reread? || t.Ready? || t.InFlight? ==> !HasFresh(t.entry, t.call.fraction, t.checked))
    && (t.Ready? || t.InFlight? ==> t.entry.cookie.Some? && t.call.url !in s.failed)
    && (t.Failing? && LastToken(s.trips, t.call.url).Some? ==> t.entry.token == LastToken(s.trips, t.call.url))
    && (t.WantsStore? || t.HasStore? || t.Loaded? ==>
          && t.call.url !in s.failed
          && t.cookie == Accepted(s, t.call.url)
          && LastToken(s.trips, t.call.url) == Some(t.token))
    && (t.Loaded? || t.RecordLoaded? ==> t.snapshot == s.store)
  }

  /** The last good refresh is what the store holds, once it has been written. */
  ghost predicate Tokens(s: State) {
    forall url :: LastToken(s.trips, url).Some? ==>
      BeingSettled(s, url) || EntryOf(s.store, url).token == LastToken(s.trips, url)
  }

  ghost predicate Memo(s: State) {
    forall k :: 0 <= k < |s.trips| && s.trips[k].result.None? ==>
      s.trips[k].url in s.failed
      || (s.trips[k].url in s.refreshOwner && s.refreshOwner[s.trips[k].url] < |s.threads|
          && s.threads[s.refreshOwner[s.trips[k].url]].Failing?)
  }

  ghost predicate NoRepeats(trips: seq<Trip>) {
    forall i, j :: 0 <= i < j < |trips| && trips[i].url == trips[j].url ==> trips[i].result.Some?
  }

  /** Every refresh but the first for a server found the last one's token stale. */
  ghost predicate Needed(trips: seq<Trip>) {
    forall j :: 0 <= j < |trips| ==>
      && trips[j].previous == LastToken(trips[..j], trips[j].url)
      && (trips[j].previous.Some? ==> !Fresh(trips[j].previous.value, trips[j].fraction, trips[j].checked))
  }

  ghost predicate OnlyAccepted(sent: seq<Sent>) {
    forall k :: 0 <= k < |sent| ==> sent[k].cookie == sent[k].accepted
  }

  ghost predicate Inv(s: State) {
    && RefreshLocks(s) && StoreLock(s) && Sessions(s) && Tokens(s) && Memo(s)
    && NoRepeats(s.trips) && Needed(s.trips) && OnlyAccepted(s.sent)
    && (forall i :: 0 <= i < |s.threads| ==> ThreadInv(s, s.threads[i]))
  }

  // -------------------------------------------------------------------------
  // Every step keeps it
  // -------------------------------------------------------------------------

  /** A thread that goes on without letting go of a refresh lock, or taking one. */
  lemma RefreshLocksStay(s: State, i: nat, t: Thread, next: State)
    requires RefreshLocks(s) && i < |s.threads|
    requires next.threads == s.threads[i := t] && next.refreshOwner == s.refreshOwner
    requires Refreshing(t) == Refreshing(s.threads[i])
    requires Refreshing(t) ==> t.call.url == s.threads[i].call.url
    ensures RefreshLocks(next)
  {
  }

  lemma StoreLockStays(s: State, i: nat, t: Thread, next: State)
    requires StoreLock(s) && i < |s.threads|
    requires next.threads == s.threads[i := t] && next.storeOwner == s.storeOwner
    requires Storing(t) == Storing(s.threads[i])
    ensures StoreLock(next)
  {
  }

  lemma RefreshLockIsTaken(s: State, i: nat)
    requires RefreshLocks(s) && i < |s.threads| && s.threads[i].Waiting? && CanAdvance(s, s.threads[i])
    ensures RefreshLocks(Advanced(s, i))
  {
  }

  lemma RefreshLockIsFreed(s: State, i: nat)
    requires RefreshLocks(s) && i < |s.threads| && s.threads[i].Unlocking?
    ensures RefreshLocks(Advanced(s, i))
  {
    var next := Advanced(s, i);
    var url := s.threads[i].call.url;
    forall j | 0 <= j < |next.threads| && Refreshing(next.threads[j])
      ensures next.threads[j].call.url in next.refreshOwner && next.refreshOwner[next.threads[j].call.url] == j
    {
      assert j != i && s.refreshOwner[url] == i;
      assert s.refreshOwner[s.threads[j].call.url] == j;
    }
  }

  /** A refresh lock stays with a thread that has it before and after. */
  lemma OwnerStays(s: State, i: nat, t: Thread, next: State, url: string)
    requires RefreshLocks(s) && RefreshLocks(next) && i < |s.threads| && next.threads == s.threads[i := t]
    requires url in s.refreshOwner
    requires s.refreshOwner[url] == i ==> Refreshing(t) && t.call.url == url
    ensures url in next.refreshOwner && next.refreshOwner[url] == s.refreshOwner[url] < |s.threads|
  {
    assert Refreshing(next.threads[s.refreshOwner[url]]);
  }

  /** The steps that change nothing but a thread and who holds which lock. */
  lemma MoveKeepsInv(s: State, i: nat, t: Thread, next: State)
    requires Inv(s) && i < |s.threads|
    requires next == s.(threads := s.threads[i := t], refreshOwner := next.refreshOwner, storeOwner := next.storeOwner)
    requires RefreshLocks(next) && StoreLock(next) && ThreadInv(s, t)
    requires Unsettled(s.threads[i]) ==>
               Unsettled(t) && t.Failing? == s.threads[i].Failing? && t.call == s.threads[i].call
    ensures Inv(next)
  {
    forall url | BeingSettled(s, url)
      ensures BeingSettled(next, url) && s.refreshOwner[url] == next.refreshOwner[url]
    {
      assert Refreshing(s.threads[s.refreshOwner[url]]) && s.threads[s.refreshOwner[url]].call.url == url;
      OwnerStays(s, i, t, next, url);
    }
    hide RefreshLocks, StoreLock, HasFresh, LastToken, NoRepeats, Needed, OnlyAccepted, Accepted, EntryOf;
    assert Memo(next) by {
      forall url | BeingSettled(s, url) && s.threads[s.refreshOwner[url]].Failing?
        ensures next.threads[next.refreshOwner[url]].Failing?
      {
      }
    }
    forall j | 0 <= j < |next.threads|
      ensures ThreadInv(next, next.threads[j])
    {
      assert ThreadInv(s, next.threads[j]);
    }
  }

  lemma LastTokenAfter(trips: seq<Trip>, trip: Trip, url: string)
    ensures LastToken(trips + [trip], url)
         == if trip.url == url && trip.result.Some? then trip.result else LastToken(trips, url)
  {
    assert (trips + [trip])[..|trips|] == trips;
  }

  /** Nothing but what concerns one server has changed. */
  ghost predicate OnlyServer(s: State, next: State, url: string) {
    forall other :: other != url ==>
      && EntryOf(next.store, other) == EntryOf(s.store, other)
      && (other in next.failed <==> other in s.failed)
      && Accepted(next, other) == Accepted(s, other)
      && LastToken(next.trips, other) == LastToken(s.trips, other)
  }

  /** Thread `i`, which holds the refresh lock of `t.call.url`, has become `t`. */
  ghost predicate OwnStep(s: State, i: nat, t: Thread, next: State) {
    && i < |s.threads| && Refreshing(s.threads[i]) && Refreshing(t) && t.call == s.threads[i].call
    && Storing(t) == Storing(s.threads[i])
    && next.threads == s.threads[i := t]
    && next.refreshOwner == s.refreshOwner && next.storeOwner == s.storeOwner
    && (next.store == s.store || Storing(s.threads[i]))
    && OnlyServer(s, next, t.call.url)
  }

  lemma OthersKeepThreadInv(s: State, i: nat, t: Thread, next: State)
    requires Inv(s) && OwnStep(s, i, t, next)
    ensures forall j :: 0 <= j < |s.threads| && j != i ==> ThreadInv(next, next.threads[j])
  {
    forall j | 0 <= j < |s.threads| && j != i
      ensures ThreadInv(next, next.threads[j])
    {
      assert ThreadInv(s, s.threads[j]);
      hide HasFresh, LastToken, EntryOf, Accepted, Sessions, Tokens, Memo, NoRepeats, Needed, OnlyAccepted;
    }
  }

  /** It leaves every other server as settled as it was. */
  lemma OthersStaySettled(s: State, i: nat, t: Thread, next: State)
    requires RefreshLocks(s) && OwnStep(s, i, t, next)
    ensures t.call.url in s.refreshOwner && s.refreshOwner[t.call.url] == i
    ensures forall url :: url in s.refreshOwner ==> s.refreshOwner[url] < |s.threads|
    ensures forall url :: url in s.refreshOwner && url != t.call.url ==> s.refreshOwner[url] != i
    ensures forall url :: url != t.call.url ==> BeingSettled(next, url) == BeingSettled(s, url)
  {
  }

  lemma OwnKeepsSessions(s: State, i: nat, t: Thread, next: State)
    requires Inv(s) && OwnStep(s, i, t, next)
    requires EntryOf(next.store, t.call.url).cookie.Some? ==>
               || t.call.url in next.failed || Unsettled(t)
               || EntryOf(next.store, t.call.url).cookie.value == Accepted(next, t.call.url)
    requires LastToken(next.trips, t.call.url).Some? ==>
               Unsettled(t) || EntryOf(next.store, t.call.url).token == LastToken(next.trips, t.call.url)
    ensures Sessions(next) && Tokens(next)
  {
    OthersStaySettled(s, i, t, next);
    hide RefreshLocks, StoreLock, LastToken, NoRepeats, Needed, OnlyAccepted, ThreadInv, Memo, Accepted;
    forall url | url in next.store.servers && next.store.servers[url].cookie.Some?
      ensures url in next.failed || BeingSettled(next, url) || next.store.servers[url].cookie.value == Accepted(next, url)
    {
      assert EntryOf(next.store, url) == next.store.servers[url];
    }
  }

  lemma OwnKeepsMemo(s: State, i: nat, t: Thread, next: State)
    requires Inv(s) && OwnStep(s, i, t, next)
    requires forall k :: 0 <= k < |next.trips| && next.trips[k].result.None? ==>
               if next.trips[k].url == t.call.url then t.call.url in next.failed || t.Failing?
               else k < |s.trips| && s.trips[k] == next.trips[k]
    ensures Memo(next)
  {
    OthersStaySettled(s, i, t, next);
    hide RefreshLocks, StoreLock, LastToken, NoRepeats, Needed, OnlyAccepted, ThreadInv, Sessions, Tokens, Accepted, EntryOf;
  }

  /** A thread that holds a refresh lock goes on, and changes what concerns its own server. */
  lemma OwnKeepsInv(s: State, i: nat, t: Thread, next: State)
    requires Inv(s) && OwnStep(s, i, t, next) && ThreadInv(next, t)
    requires Sessions(next) && Tokens(next) && Memo(next)
    requires NoRepeats(next.trips) && Needed(next.trips) && OnlyAccepted(next.sent)
    ensures Inv(next)
  {
    RefreshLocksStay(s, i, t, next);
    StoreLockStays(s, i, t, next);
    OthersKeepThreadInv(s, i, t, next);
    hide RefreshLocks, StoreLock, HasFresh, LastToken, NoRepeats, Needed, OnlyAccepted, ThreadInv, Sessions, Tokens, Memo;
  }

  lemma SendKeepsInv(s: State, i: nat)
    requires Inv(s) && i < |s.threads| && s.threads[i].Ready? && s.threads[i].entry.cookie.Some?
    ensures Inv(Advanced(s, i))
  {
    var t := s.threads[i];
    var next := Advanced(s, i);
    assert ThreadInv(s, t);
    OthersStaySettled(s, i, next.threads[i], next);
    OwnKeepsSessions(s, i, next.threads[i], next);
    OwnKeepsMemo(s, i, next.threads[i], next);
    assert OnlyAccepted(next.sent);
    OwnKeepsInv(s, i, next.threads[i], next);
  }

  /** A refresh is never repeated after one that failed, nor while the last one's token is good. */
  lemma TripIsNeeded(s: State, i: nat, result: Option<Token>)
    requires Inv(s) && i < |s.threads| && s.threads[i].InFlight?
    ensures NoRepeats(Recorded(s, s.threads[i], result).trips)
    ensures Needed(Recorded(s, s.threads[i], result).trips)
  {
    var t := s.threads[i];
    var trips := Recorded(s, t, result).trips;
    assert ThreadInv(s, t);
    assert !BeingSettled(s, t.call.url) by { assert Refreshing(t); }
    assert trips[..|s.trips|] == s.trips;
    assert Needed(trips) by {
      forall j | 0 <= j < |s.trips|
        ensures trips[..j] == s.trips[..j]
      {
      }
    }
  }

  /** A refresh comes to its end: thread `i` has become `t`, and the request is on record. */
  ghost predicate Ended(s: State, i: nat, rotated: bool, result: Option<Token>, t: Thread, next: State) {
    && i < |s.threads| && s.threads[i].InFlight?
    && next == Put(Recorded(Rotate(s, s.threads[i].call.url, rotated), s.threads[i], result), i, t)
    && Refreshing(t) && !Storing(t) && t.call == s.threads[i].call
  }

  lemma EndOfOthers(s: State, i: nat, rotated: bool, result: Option<Token>, t: Thread, next: State, url: string)
    requires Ended(s, i, rotated, result, t, next)
    ensures EntryOf(next.store, url) == EntryOf(s.store, url) && (url in next.failed <==> url in s.failed)
    ensures url != t.call.url ==> Accepted(next, url) == Accepted(s, url)
    ensures LastToken(next.trips, url)
         == if url == t.call.url && result.Some? then result else LastToken(s.trips, url)
  {
    hide LastToken;
    LastTokenAfter(s.trips, next.trips[|s.trips|], url);
  }

  lemma EndIsOwnStep(s: State, i: nat, rotated: bool, result: Option<Token>, t: Thread, next: State)
    requires Ended(s, i, rotated, result, t, next)
    ensures OwnStep(s, i, t, next)
    ensures LastToken(next.trips, t.call.url) == if result.Some? then result else LastToken(s.trips, t.call.url)
  {
    hide LastToken, Accepted, EntryOf;
    forall url {
      EndOfOthers(s, i, rotated, result, t, next, url);
    }
  }

  /** Until its request ends, the thread has the entry that the last good refresh left. */
  lemma EntryIsLast(s: State, i: nat)
    requires Inv(s) && i < |s.threads| && s.threads[i].InFlight?
    ensures var t := s.threads[i];
            && t.entry == EntryOf(s.store, t.call.url)
            && (LastToken(s.trips, t.call.url).Some? ==> t.entry.token == LastToken(s.trips, t.call.url))
  {
    assert ThreadInv(s, s.threads[i]);
    assert !BeingSettled(s, s.threads[i].call.url) by { assert Refreshing(s.threads[i]); }
    hide RefreshLocks, StoreLock, Sessions, Memo, NoRepeats, Needed, OnlyAccepted, LastToken, HasFresh;
  }

  lemma EndKeepsMemo(s: State, i: nat, rotated: bool, result: Option<Token>, t: Thread, next: State)
    requires Inv(s) && Ended(s, i, rotated, result, t, next) && OwnStep(s, i, t, next)
    requires result.None? ==> t.Failing?
    ensures Memo(next)
  {
    assert s.refreshOwner[t.call.url] == i by { assert Refreshing(s.threads[i]); }
    hide RefreshLocks, StoreLock, Sessions, Tokens, NoRepeats, Needed, OnlyAccepted, LastToken, ThreadInv;
    OwnKeepsMemo(s, i, t, next);
  }

  /** The thread knows what it has to, when its request has ended. */
  lemma EndKnows(s: State, i: nat, rotated: bool, result: Option<Token>, t: Thread, next: State)
    requires Inv(s) && Ended(s, i, rotated, result, t, next)
    requires t == if result.None? then Failing(s.threads[i].call, s.threads[i].entry)
                  else WantsStore(s.threads[i].call, result.value, Accepted(next, s.threads[i].call.url))
    ensures ThreadInv(next, t)
  {
    assert ThreadInv(s, s.threads[i]);
    hide Inv, LastToken, HasFresh, EntryOf, Accepted, NoRepeats, Needed;
    EndOfOthers(s, i, rotated, result, t, next, t.call.url);
    EntryIsLast(s, i);
  }

  lemma EndKeepsInv(s: State, i: nat, rotated: bool, result: Option<Token>, t: Thread, next: State)
    requires Inv(s) && Ended(s, i, rotated, result, t, next)
    requires t == if result.None? then Failing(s.threads[i].call, s.threads[i].entry)
                  else WantsStore(s.threads[i].call, result.value, Accepted(next, s.threads[i].call.url))
    ensures Inv(next)
  {
    TripIsNeeded(s, i, result);
    EndIsOwnStep(s, i, rotated, result, t, next);
    EndKeepsMemo(s, i, rotated, result, t, next);
    EndKnows(s, i, rotated, result, t, next);
    assert OnlyAccepted(next.sent) && Unsettled(t);
    assert next.trips == Recorded(s, s.threads[i], result).trips;
    hide *;
    OwnKeepsSessions(s, i, t, next);
    OwnKeepsInv(s, i, t, next);
  }

  lemma SaveKeepsInv(s: State, i: nat)
    requires Inv(s) && i < |s.threads| && s.threads[i].Loaded?
    ensures Inv(Advanced(s, i))
  {
    hide LastToken, HasFresh, NoRepeats, Needed, OnlyAccepted, RefreshLocks, StoreLock;
    var next := Advanced(s, i);
    assert ThreadInv(s, s.threads[i]);
    OthersStaySettled(s, i, next.threads[i], next);
    OwnKeepsSessions(s, i, next.threads[i], next);
    OwnKeepsMemo(s, i, next.threads[i], next);
    OwnKeepsInv(s, i, next.threads[i], next);
  }

  lemma GivingUpKeepsInv(s: State, i: nat)
    requires Inv(s) && i < |s.threads| && s.threads[i].Failing?
    ensures Inv(Advanced(s, i))
  {
    hide LastToken, HasFresh, NoRepeats, Needed, OnlyAccepted, RefreshLocks, StoreLock, Sessions, Tokens;
    var next := Advanced(s, i);
    assert ThreadInv(s, s.threads[i]);
    assert OwnStep(s, i, next.threads[i], next);
    OwnKeepsSessions(s, i, next.threads[i], next);
    OwnKeepsMemo(s, i, next.threads[i], next);
    OwnKeepsInv(s, i, next.threads[i], next);
  }

  /** The steps under no lock, and those that take or free the refresh lock. */
  lemma ReadingKeepsInv(s: State, i: nat)
    requires Inv(s) && i < |s.threads| && CanAdvance(s, s.threads[i])
    requires var t := s.threads[i]; t.Reading? || t.Unsure? || t.Waiting? || t.Unlocking?
    ensures Inv(Advanced(s, i))
  {
    hide HasFresh, LastToken, Sessions, Tokens, Memo, NoRepeats, Needed, OnlyAccepted, Unexpired, EntryOf;
    var t := s.threads[i];
    var next := Advanced(s, i);
    if t.Waiting? {
      RefreshLockIsTaken(s, i);
    } else if t.Unlocking? {
      RefreshLockIsFreed(s, i);
    } else {
      RefreshLocksStay(s, i, next.threads[i], next);
    }
    StoreLockStays(s, i, next.threads[i], next);
    hide RefreshLocks, StoreLock;
    MoveKeepsInv(s, i, next.threads[i], next);
  }

  /** The checks made under the refresh lock, before anything is sent. */
  lemma CheckingKeepsInv(s: State, i: nat)
    requires Inv(s) && i < |s.threads|
    requires var t := s.threads[i]; t.Locked? || t.Reread? || (t.Ready? && t.entry.cookie.None?)
    ensures Inv(Advanced(s, i))
  {
    var next := Advanced(s, i);
    var t := next.threads[i];
    assert ThreadInv(s, s.threads[i]);
    RefreshLocksStay(s, i, t, next);
    StoreLockStays(s, i, t, next);
    assert !BeingSettled(s, s.threads[i].call.url) by { assert Refreshing(s.threads[i]); }
    hide RefreshLocks, StoreLock, HasFresh, LastToken;
    MoveKeepsInv(s, i, t, next);
  }

  lemma StoreLockIsPassed(s: State, i: nat)
    requires StoreLock(s) && i < |s.threads| && CanAdvance(s, s.threads[i])
    requires var t := s.threads[i]; t.WantsStore? || t.Written? || t.RecordWantsStore? || t.RecordWritten?
    ensures StoreLock(Advanced(s, i))
  {
  }

  /** Taking the store lock, freeing it, and reading the store under it. */
  lemma StoringKeepsInv(s: State, i: nat)
    requires Inv(s) && i < |s.threads| && CanAdvance(s, s.threads[i])
    requires var t := s.threads[i];
      t.WantsStore? || t.HasStore? || t.Written? || t.RecordWantsStore? || t.RecordHasStore? || t.RecordWritten?
    ensures Inv(Advanced(s, i))
  {
    hide HasFresh, LastToken, EntryOf, Accepted, RefreshLocks, StoreLock, Sessions, Tokens, Memo, NoRepeats, Needed, OnlyAccepted;
    var next := Advanced(s, i);
    var t := next.threads[i];
    assert ThreadInv(s, t) by { assert ThreadInv(s, s.threads[i]); }
    hide ThreadInv;
    RefreshLocksStay(s, i, t, next);
    if s.threads[i].HasStore? || s.threads[i].RecordHasStore? {
      StoreLockStays(s, i, t, next);
    } else {
      StoreLockIsPassed(s, i);
    }
    MoveKeepsInv(s, i, t, next);
  }

  /** Noting a box leaves every session as it was. */
  lemma BoxesKeepInv(s: State, i: nat, boxes: map<string, string>)
    requires Inv(s) && i < |s.threads| && s.threads[i].RecordWritten?
    ensures Inv(s.(store := s.store.(boxes := boxes)))
  {
    var next := s.(store := s.store.(boxes := boxes));
    hide HasFresh, LastToken, NoRepeats, Needed, OnlyAccepted;
    forall url ensures EntryOf(next.store, url) == EntryOf(s.store, url) {
    }
    hide EntryOf;
    forall j | 0 <= j < |next.threads|
      ensures ThreadInv(next, next.threads[j])
    {
      assert ThreadInv(s, next.threads[j]);
      assert Storing(s.threads[i]);
    }
    hide RefreshLocks, StoreLock, ThreadInv, BeingSettled;
  }

  lemma RecordingKeepsInv(s: State, i: nat)
    requires Inv(s) && i < |s.threads| && s.threads[i].RecordLoaded?
    ensures Inv(Advanced(s, i))
  {
    var t := s.threads[i];
    assert ThreadInv(s, t);
    RefreshLocksStay(s, i, RecordWritten, Put(s, i, RecordWritten));
    StoreLockStays(s, i, RecordWritten, Put(s, i, RecordWritten));
    hide Inv, RefreshLocks, StoreLock, HasFresh, LastToken;
    MoveKeepsInv(s, i, RecordWritten, Put(s, i, RecordWritten));
    BoxesKeepInv(Put(s, i, RecordWritten), i, t.snapshot.boxes[t.box := t.url]);
  }

  lemma BeginKeepsInv(s: State, i: nat, t: Thread)
    requires Inv(s) && i < |s.threads| && Finished(s.threads[i]) && (t.Reading? || t.RecordWantsStore?)
    ensures Inv(Put(s, i, t))
  {
    RefreshLocksStay(s, i, t, Put(s, i, t));
    StoreLockStays(s, i, t, Put(s, i, t));
    hide RefreshLocks, StoreLock;
    MoveKeepsInv(s, i, t, Put(s, i, t));
  }

  lemma AdvanceKeepsInv(s: State, i: nat)
    requires Inv(s) && i < |s.threads| && CanAdvance(s, s.threads[i])
    ensures Inv(Advanced(s, i))
  {
    hide Inv, Advanced;
    match s.threads[i]
    case Reading(_) => ReadingKeepsInv(s, i);
    case Unsure(_, _) => ReadingKeepsInv(s, i);
    case Waiting(_) => ReadingKeepsInv(s, i);
    case Unlocking(_, _) => ReadingKeepsInv(s, i);
    case Locked(_) => CheckingKeepsInv(s, i);
    case Reread(_, _, _) => CheckingKeepsInv(s, i);
    case Ready(_, entry, _, _) => if entry.cookie.Some? { SendKeepsInv(s, i); } else { CheckingKeepsInv(s, i); }
    case Loaded(_, _, _, _) => SaveKeepsInv(s, i);
    case Failing(_, _) => GivingUpKeepsInv(s, i);
    case RecordLoaded(_, _, _) => RecordingKeepsInv(s, i);
    case _ => StoringKeepsInv(s, i);
  }

  /** A request that is tried again. */
  lemma RetryKeepsInv(s: State, i: nat)
    requires Inv(s) && i < |s.threads| && s.threads[i].InFlight? && !s.threads[i].retried
    ensures var t := s.threads[i];
            Inv(Put(s, i, Ready(t.call, t.entry, t.checked, true)))
  {
    hide RefreshLocks, StoreLock, Sessions, Tokens, Memo, NoRepeats, Needed, OnlyAccepted, HasFresh, LastToken;
    var t := s.threads[i];
    var u := Ready(t.call, t.entry, t.checked, true);
    var next := Put(s, i, u);
    assert ThreadInv(s, t);
    RefreshLocksStay(s, i, u, next);
    StoreLockStays(s, i, u, next);
    MoveKeepsInv(s, i, u, next);
  }

  lemma ArriveKeepsInv(s: State, i: nat, outcome: Outcome)
    requires Inv(s) && i < |s.threads| && s.threads[i].InFlight?
    ensures Inv(Arrived(s, i, outcome))
  {
    hide Inv, EntryOf, HasFresh, LastToken;
    var t, next := s.threads[i], Arrived(s, i, outcome);
    if outcome.NotReached? && outcome.fast && !t.retried {
      RetryKeepsInv(s, i);
    } else {
      match outcome
      case NotReached(_) => EndKeepsInv(s, i, false, None, next.threads[i], next);
      case Unclear(rotated) => EndKeepsInv(s, i, rotated, None, next.threads[i], next);
      case Success(token, rotated) => EndKeepsInv(s, i, rotated, Some(token), next.threads[i], next);
    }
  }

  lemma StepKeepsInv(s: State, step: Step)
    requires Inv(s)
    ensures Inv(Next(s, step))
  {
    if Enabled(s, step) {
      match step
      case Tick(now) => TickKeepsInv(s, now);
      case Go(i, move) =>
        hide Inv, Advanced, Arrived;
        match move
        case Begin(call) => BeginKeepsInv(s, i, Reading(call));
        case BeginRecord(box, url) => BeginKeepsInv(s, i, RecordWantsStore(box, url));
        case Advance => AdvanceKeepsInv(s, i);
        case Arrive(outcome) => ArriveKeepsInv(s, i, outcome);
    }
  }

  lemma TickKeepsInv(s: State, now: real)
    requires Inv(s)
    ensures Inv(s.(clock := now))
  {
    hide LastToken, HasFresh;
    forall i | 0 <= i < |s.threads|
      ensures ThreadInv(s.(clock := now), s.threads[i])
    {
      assert ThreadInv(s, s.threads[i]);
    }
  }

  lemma {:induction false} ExecKeepsInv(n: nat, store: Store, current: map<string, nat>, clock: real, steps: seq<Step>)
    requires InSync(store, current)
    ensures Inv(Exec(Start(n, store, current, clock), steps))
  {
    if steps != [] {
      ExecKeepsInv(n, store, current, clock, steps[..|steps| - 1]);
      StepKeepsInv(Exec(Start(n, store, current, clock), steps[..|steps| - 1]), steps[|steps| - 1]);
    }
  }

  // -------------------------------------------------------------------------
  // Single flight
  // -------------------------------------------------------------------------

  /** At most one refresh per server is in flight. */
  lemma SingleFlight(n: nat, store: Store, current: map<string, nat>, clock: real, steps: seq<Step>, i: nat, j: nat)
    requires InSync(store, current)
    requires var s := Exec(Start(n, store, current, clock), steps);
      i < |s.threads| && j < |s.threads| && s.threads[i].InFlight? && s.threads[j].InFlight?
      && s.threads[i].call.url == s.threads[j].call.url
    ensures i == j
  {
    ExecKeepsInv(n, store, current, clock, steps);
  }

  /** A cookie that a rotation has superseded is never sent. */
  lemma NoStaleCookie(n: nat, store: Store, current: map<string, nat>, clock: real, steps: seq<Step>)
    requires InSync(store, current)
    ensures OnlyAccepted(Exec(Start(n, store, current, clock), steps).sent)
  {
    ExecKeepsInv(n, store, current, clock, steps);
  }

  /** A refresh that failed was the last of that server in this process. */
  lemma FailureIsFinal(n: nat, store: Store, current: map<string, nat>, clock: real, steps: seq<Step>, i: nat, j: nat)
    requires InSync(store, current)
    requires var trips := Exec(Start(n, store, current, clock), steps).trips;
      i < j < |trips| && trips[i].url == trips[j].url
    ensures Exec(Start(n, store, current, clock), steps).trips[i].result.Some?
  {
    ExecKeepsInv(n, store, current, clock, steps);
  }

  /**
    Callers that find one stale token cause one round trip: each refresh after
    the first was made by a thread that had found the last one's token stale,
    under the lock.  If that token stated its lifetime when it was issued, more
    than a second, and less than all of it was asked for, its margin had begun.
  */
  lemma OneTripPerToken(n: nat, store: Store, current: map<string, nat>, clock: real, steps: seq<Step>, k: nat, issued: real)
    requires InSync(store, current)
    requires var trips := Exec(Start(n, store, current, clock), steps).trips;
      k < |trips| && LastToken(trips[..k], trips[k].url).Some?
    ensures var trip := Exec(Start(n, store, current, clock), steps).trips[k];
            var token := LastToken(Exec(Start(n, store, current, clock), steps).trips[..k], trip.url).value;
            && !Fresh(token, trip.fraction, trip.checked)
            && (&& token.lifetime.Some? && token.lifetime.value > 1.0
                && token.expires == issued + token.lifetime.value
                && (trip.fraction.Some? ==> trip.fraction.value < 1.0)
                ==> issued < token.expires - Margin(token, trip.fraction) <= trip.checked)
  {
    ExecKeepsInv(n, store, current, clock, steps);
    var trips := Exec(Start(n, store, current, clock), steps).trips;
    var token := LastToken(trips[..k], trips[k].url).value;
    hide Margin;
    if token.lifetime.Some? && token.lifetime.value > 0.0 && token.expires == issued + token.lifetime.value {
      FreshWhenIssued(token, trips[k].fraction, issued);
    }
  }

  // -------------------------------------------------------------------------
  // Every call returns
  // -------------------------------------------------------------------------

  /** Whoever waits for a lock waits for a thread that can go on. */
  lemma NoDeadlock(s: State, i: nat) returns (k: nat)
    requires Inv(s) && i < |s.threads| && !Finished(s.threads[i])
    ensures k < |s.threads| && (CanAdvance(s, s.threads[k]) || s.threads[k].InFlight?)
  {
    k := i;
    if s.threads[k].Waiting? && !CanAdvance(s, s.threads[k]) {
      k := s.refreshOwner[s.threads[k].call.url];
    }
    if (s.threads[k].WantsStore? || s.threads[k].RecordWantsStore?) && !CanAdvance(s, s.threads[k]) {
      k := s.storeOwner.value;
    }
  }

  /** A bound on the steps that a thread has left. */
  function Left(t: Thread): nat {
    match t
    case Idle => 0
    case Done(_) => 0
    case Reading(_) => 17
    case Unsure(_, _) => 16
    case Waiting(_) => 15
    case Locked(_) => 14
    case Reread(_, _, _) => 13
    case Ready(_, _, _, retried) => if retried then 10 else 12
    case InFlight(_, _, _, retried) => if retried then 9 else 11
    case WantsStore(_, _, _) => 6
    case HasStore(_, _, _) => 5
    case Loaded(_, _, _, _) => 4
    case Written(_, _) => 3
    case Failing(_, _) => 2
    case Unlocking(_, _) => 1
    case RecordWantsStore(_, _) => 4
    case RecordHasStore(_, _) => 3
    case RecordLoaded(_, _, _) => 2
    case RecordWritten => 1
  }

  function TotalLeft(threads: seq<Thread>): nat {
    if threads == [] then 0 else Left(threads[0]) + TotalLeft(threads[1..])
  }

  lemma {:induction false} TotalLeftAfter(threads: seq<Thread>, i: nat, t: Thread)
    requires i < |threads|
    ensures TotalLeft(threads[i := t]) == TotalLeft(threads) - Left(threads[i]) + Left(t)
  {
    if i > 0 {
      assert threads[i := t][1..] == threads[1..][i - 1 := t];
      TotalLeftAfter(threads[1..], i - 1, t);
    }
  }

  /** Thread `i` has gone on, and has less left to do. */
  ghost predicate Progress(s: State, i: nat, next: State) {
    && i < |s.threads| == |next.threads|
    && next.threads == s.threads[i := next.threads[i]]
    && Left(next.threads[i]) < Left(s.threads[i])
  }

  lemma ReadingIsProgress(s: State, i: nat)
    requires i < |s.threads| && CanAdvance(s, s.threads[i])
    requires var t := s.threads[i];
      t.Reading? || t.Unsure? || t.Waiting? || t.Locked? || t.Reread? || t.Ready? || t.Failing? || t.Unlocking?
    ensures Progress(s, i, Advanced(s, i))
  {
    hide HasFresh, Unexpired, EntryOf, Accepted;
  }

  lemma StoringIsProgress(s: State, i: nat)
    requires i < |s.threads| && CanAdvance(s, s.threads[i])
    requires var t := s.threads[i];
      t.WantsStore? || t.RecordWantsStore? || Storing(t)
    ensures Progress(s, i, Advanced(s, i))
  {
    hide HasFresh, Unexpired, EntryOf, Accepted;
  }

  lemma ArrivalIsProgress(s: State, i: nat, outcome: Outcome)
    requires i < |s.threads| && s.threads[i].InFlight?
    ensures Progress(s, i, Arrived(s, i, outcome))
  {
  }

  /** Every step of a call in progress is progress. */
  lemma StepsRunOut(s: State, i: nat, move: Move)
    requires Enabled(s, Go(i, move)) && (move.Advance? || move.Arrive?)
    ensures TotalLeft(Next(s, Go(i, move)).threads) < TotalLeft(s.threads)
  {
    hide Advanced, Arrived, TotalLeft, Left;
    var next := Next(s, Go(i, move));
    if move.Arrive? {
      ArrivalIsProgress(s, i, move.outcome);
    } else if s.threads[i].WantsStore? || s.threads[i].RecordWantsStore? || Storing(s.threads[i]) {
      StoringIsProgress(s, i);
    } else {
      ReadingIsProgress(s, i);
    }
    TotalLeftAfter(s.threads, i, next.threads[i]);
  }
}
