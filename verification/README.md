# Verification of the lager box tools

Dafny models of the parts of this repository whose correctness depends on
arithmetic, on interleaving or on whole runs, with proofs of what their code and
documentation promise.  `dafny verify dfyconfig.toml` checks all of it.

| module | what it models |
|---|---|
| `LockState` | the box lock: four operations on one record, as a specification and as a class that changes the file under its guard |
| `LockRuns` | runs of that server: leases against whole-second stamps, what can end a hold, lazy reaping against a timer |
| `LockThreads`, `LockProgress` | request threads in the processes that share the file, interleaved at each take of the guard, read, clock test, removal and replacement; a thread may die anywhere |
| `HolderRule` | when a stored holder counts as ours |
| `LockClients`, `ClientLives` | any number of auto-locked commands against one box, with lost, unheard and late messages; how each of them renews, ends, gives up and dies |
| `Heartbeat` | the heartbeat thread and its warning |
| `LockSession` | the acquire and release loops, and the flags behind the one release of a command |
| `Crc`, `Hdlc`, `HdlcLine` | HDLC framing with CRC-16/CCITT-FALSE: encoder, byte-wise decoder, burst errors before stuffing and on the line |
| `TokenRefresh`, `TokenResults` | single-flight refresh of access tokens by the threads of one process; what each caller gets, and what the store keeps |
| `DeviceLocks`, `DeviceRequests` | driver calls under per-device locks, with deadlines, abandoned workers, recovery and a shared driver cache; what requests get, in terms of what they say |
| `NetsCache` | the cached list of saved nets, with a writer that may replace the file between two looks |
| `RateLimit`, `Safety`, `InterlockRuns` | the interlock in front of the instruments: its tables, its verdicts, the cap on call rates, and all of these over runs |
| `Instruments`, `DriverTables` | the registers behind it: which driver methods write what, which calls the interlock sees, and which requests reach which instrument |
| `OutputProtocol`, `OutputFields`, `UnityMatcher` | the framed output stream of a run, from reads to parsed frames, and a matcher that consumes it |
| `GatewayTunnel`, `TunnelRuns` | who closes the sockets of a tunnel while `close` may be called at any time, and what becomes of its connections |
| `LineKinds`, `Reflow` | what the patterns for lines match; joining the soft line breaks of a Chinese page, and the structure it must keep |
| `ApiSurface` | the call-graph search and the comparison of the API listing tool |

Protocols are state machines: a `State`, a `Step` datatype, a total function
`Next` in which a step that is not enabled changes nothing, `Exec` over any
sequence of steps, and an invariant that every step keeps.  Objects that the code
updates in place are classes whose methods are proved against the functions of
the same module.  Clocks, answers of other machines, and what a read returns
appear as parameters or as steps that may take any value.

Assumptions that the theorems name as premises: distinct holder strings, renewals
within the lease less a second and no forced unlock (`LockClients`); a process
that starts with the sessions its servers accept, and connection errors other
than a timeout that mean the server saw nothing (`TokenRefresh`); file versions
with modification times of their own (`NetsCache`).

Where the code falls short of its documentation, the code is modelled, and a
theorem says exactly when the promise does hold: `LockRuns.SafeGapIff` (how long
a lease lasts), `DeviceLocks.AgreementIsNeeded` (a call runs on its channel),
`Instruments.TablesDecide` and `Instruments.HoldingIsNeeded` (an instrument stays
inside its limits), `GatewayTunnel.OnlyOneCallIsSafe` (`close` drops every
tunnel) and `ApiSurface.AllNamesAreFound` (every action name is found).  Beside
each stands an input for which it does not.

## Model

| member | source | states |
|---|---|---|
| LockState.LockServer.ReadLock | box/lager/lock_state.py:167-184 | a read returns the record unless its lease has run out, in which case the file is emptied |
| LockState.LockServer.GetStatus | box/lager/lock_state.py:274-286 | status reports the live record, and reaps an expired one |
| LockState.LockServer.AcquireLock | box/lager/lock_state.py:289-383 | every branch of acquire: bad request, the error of an infinite lease, conflict, fresh lock, and the refresh that keeps classification and lease of a lock that is not automatic |
| LockState.LockServer.RenewLock | box/lager/lock_state.py:386-411 | every branch of a heartbeat: only the live lock's own user moves its stamp, and nothing else of it |
| LockState.LockServer.ReleaseLock | box/lager/lock_state.py:414-443 | every branch of a release: the record goes only for its user or by force |
| LockRuns.LeaseEnd | box/lager/lock_state.py:91-164 | with stamps cut to whole seconds and a full-resolution clock, the exact instant a lease ends: never before ttl − 1 s, always after ttl |
| LockRuns.ExpiredIff | box/lager/lock_state.py:144-164 | when a record has expired: counted from its heartbeat, or in an older record from its acquire; never, if that does not parse |
| LockRuns.SafeGapIff | box/lager/lock_state.py:156-164 | the gap between renewals that is safe wherever in a second they fall, exactly |
| LockRuns.HoldEndsOnlyForCause | box/lager/lock_state.py:289-443 | one operation ends a hold if and only if the lease had run out or it is a release that counts; else user, time of acquire and, for a lock that is not automatic, type and lease stay |
| LockRuns.HoldSurvives | box/lager/lock_state.py:167-443 | over a whole run a hold is lost only at such an operation |
| LockRuns.ReservationSurvives | box/lager/lock_state.py:352-369 | a lock without lease that is not automatic keeps user, type, time and lease through any run without a release of its own user or a forced one |
| LockRuns.AutoLockIsRewritten | box/lager/lock_state.py:352-369 | a live `ephemeral` or `ci` lock that its own user acquires again takes the type and lease that the payload asks for |
| LockRuns.FreeBoxIsGranted | box/lager/lock_state.py:315-383 | a free box grants one lock, the one that the payload stands for: the defaults of every field, stamped now |
| LockRuns.HeldForItsLease | box/lager/lock_state.py:289-443 | whatever others ask, and however often, that lock is shown, conflicts and refuses them, unchanged, until a second before its lease is over |
| LockRuns.GoneAfterItsLease | box/lager/lock_state.py:156-184 | and after that it is as if it had never been, for its own user too |
| LockRuns.OwnUserIsServed | box/lager/lock_state.py:352-443 | until then its own user renews it, releases it, and keeps its type and lease when acquiring it again, unless it is automatic |
| LockRuns.TimerMatchesTest | box/lager/lock_state.py:156-184 | a timer set from a record fires exactly when the lazy test would find it expired |
| LockRuns.ServersAgree | box/lager/lock_state.py:167-184 | after any timed schedule the lazy and the eager server hold the same record, but for one that has expired |
| LockRuns.LazyRefinesEager | box/lager/lock_state.py:167-184 | every reply of the server that reaps on the next read is that of a server that drops a lock the instant it expires, however its timer is scheduled |
| LockThreads.LogGrows | box/lager/lock_state.py:111-141 | an operation that takes effect changes no earlier answer |
| LockThreads.DecidedIsApply | box/lager/lock_state.py:289-443 | what a thread inside the guard decides to write or answer is what the atomic operation does |
| LockThreads.EffectKeepsInv | box/lager/lock_state.py:187-220 | replacing or removing the file is the moment an operation takes effect, and keeps every answer explained |
| LockThreads.StepKeepsInv | box/lager/lock_state.py:111-220 | every micro-step, a death inside the guard included, keeps the file in step with the log |
| LockThreads.Linearizable | box/lager/lock_state.py:111-141 | whatever the interleaving, each answer is the atomic server's at a place of its own in one timed log, no earlier than its request came in |
| LockThreads.RealTimeOrder | box/lager/lock_state.py:111-141 | over any run, a request that came in after another was answered is given a later place |
| LockThreads.OneWinner | box/lager/lock_state.py:343-379 | of two acquires by different users that take effect one after the other on a free record, at any place in any run, the first is granted and the second refused, unless the first one's lease ran out before |
| LockProgress.GoesOn | box/lager/lock_state.py:111-220 | a request can take its next step unless it waits while another is inside, and each step brings it nearer to its answer |
| LockProgress.NoDeadlock | box/lager/lock_state.py:111-141 | whoever waits waits for a thread that can go on |
| LockProgress.AnsweredAlone | box/lager/lock_state.py:274-443 | a request that is let run is answered within seven steps as the atomic server answers at that moment, and leaves the file as it does |
| LockProgress.TakesRequests | box/lager/lock_state.py:312-314 | a thread takes any request, and one that is turned away does not come near the file |
| LockProgress.DeathFreesTheGuard | box/lager/lock_state.py:111-141 | a thread that dies takes nothing with it but the guard that it held |
| HolderRule.PidLength | cli/box_storage.py:486-500 | exactly which texts count as a process id: a colon, digits, and then the end or an at sign |
| HolderRule.PidIsDropped | cli/box_storage.py:486-500 | the scope of a holder does not contain its process id |
| HolderRule.SameJobAnyPid | cli/box_storage.py:486-500 | two processes of one job have the same scope, whatever surrounds the process id |
| HolderRule.SiblingIsOurs | cli/box_storage.py:521-550 | so each recognises the lock of the other as its own |
| HolderRule.ScopeIsWithoutPids | cli/box_storage.py:483-500 | the scope is the holder without its process ids, found by position and not by scanning, and nothing else is changed |
| HolderRule.SameScopeIff | cli/box_storage.py:486-500 | two holders have one scope if and only if what stands around their process ids joins to the same |
| HolderRule.SameShapeSameJob | cli/box_storage.py:486-500 | so with the process id in the same place, exactly if head and tail are each the same |
| HolderRule.OtherShapeSameScope | cli/box_storage.py:486-500 | with it in different places, holders that are not built alike can have one scope |
| HolderRule.HolderEmailIff | cli/box_storage.py:503-518 | an email is read exactly from the holders that were written with it in four parts |
| HolderRule.OursIff | cli/box_storage.py:521-550 | a lock is ours exactly if it is our own, our job's, our user's, or carries our user's email |
| HolderRule.StrangerIsNotOurs | cli/box_storage.py:539-550 | another job's lock, that is neither the user's nor signed with its email, is not ours |
| HolderRule.GenericSiblingIsNotOurs | cli/box_storage.py:534-545 | unlocking on a generic runner takes only one's own lock or the plain user's |
| LockClients.HandleKeepsInv | box/lager/lock_state.py:289-443 | one request handled by the box leaves every holder's lock in its name and unexpired |
| LockClients.StepKeepsInv | cli/box_storage.py:905-1062 | every step of commands, messages, outsiders and clock keeps that |
| LockClients.MutualExclusion | cli/box_storage.py:905-1062 | in every run at most one command is in its body with a lock of its own making, and the record names it, unexpired, for as long as it is there |
| LockClients.FinishedCommandFreesBox | cli/box_storage.py:1657-1680 | when its body ends and its release reaches the box, the box is free |
| LockClients.EarnedStep | cli/box_storage.py:949-1054 | no step makes a client owe a release that its own acquire did not earn |
| LockClients.ReleasesAreEarned | cli/box_storage.py:1657-1658 | whoever posts a release had the lock made by an acquire of its own |
| LockClients.StrangersLocksAreLeftAlone | cli/box_storage.py:949-1062 | in every run, a command that works under a lock it did not make has found its own holder there, its job, its user or its user's email, and it renews no other lock |
| LockClients.ReservedStep | cli/box_storage.py:949-1024 | no step of commands for which a reservation is ours changes it, whichever of the look, the grant or the conflict they go by |
| LockClients.ReservationOutlivesCommands | cli/box_storage.py:949-1024 | a reservation keeps user, type, time and lease through any number of such commands, and none of them releases it |
| LockClients.FreeBoxCanBeAcquired | cli/box_storage.py:949-1008 | a command on a free box can get the lock |
| ClientLives.BeatsRenew | cli/box_storage.py:1691-1713 | a command renews exactly the lock it works under, if that has a lease; its heartbeat stamps a live record and changes nothing else |
| ClientLives.OthersAreNotRenewed | cli/box_storage.py:1691-1713 | a lock without a lease, and no lock at all, are not renewed |
| ClientLives.LateAskLocksForNobody | cli/box_storage.py:975-1054 | a request that was given up on may still lock the box, for nobody, and nothing releases it |
| ClientLives.UnheardAnswerIsLost | cli/box_storage.py:975-1054 | one that was answered unheard leaves nothing to be delivered |
| ClientLives.DissolvedOwesNothing | cli/box_storage.py:1715-1732 | a command that removed the lock server never renews and never releases again, whatever happens |
| ClientLives.EndedOwesItsOwn | cli/box_storage.py:1657-1680 | a body that ends, ends for good, and owes a release exactly if it had made the lock itself |
| ClientLives.DeadPostsNothing | cli/box_storage.py:1660-1689 | a process that dies posts nothing that it had not posted, and leaves the record as it is |
| Heartbeat.HeartbeatThread.OnWake | cli/box_storage.py:1344-1366 | one pass of the loop: the counters, and whether the warning is printed |
| Heartbeat.HeartbeatThread.ShouldWarn | cli/box_storage.py:1320-1327 | the warning is due, once, when the failures amount to half the lease |
| Heartbeat.HeartbeatThread.ResumeRenewals | cli/box_storage.py:1308-1318 | a resumption starts a new window |
| Heartbeat.CountersCount | cli/box_storage.py:1267-1327 | the counters are the length of the current outage and whether it has been reported, for any sequence of signals |
| Heartbeat.WarnsExactly | cli/box_storage.py:1320-1366 | the warning comes exactly with the failure that completes half the lease |
| Heartbeat.OneWarningPerWindow | cli/box_storage.py:1320-1366 | between two warnings there is a success or a resumption |
| Heartbeat.EndOfOutage | cli/box_storage.py:1344-1366 | how long a number of failed attempts can take |
| Heartbeat.WarnsBeforeLoss | cli/box_storage.py:1320-1366 | with attempts short enough for the lease, the lock is still live when the warning is printed |
| LockSession.AcquireBoxLock | cli/box_storage.py:905-1062 | the look, and the loop of posts until one decides |
| LockSession.SettleMeans | cli/box_storage.py:975-1062 | every post before the last met another's lock in time; which last posts lead to each of the four outcomes, both ways |
| LockSession.ReleaseBoxLock | cli/box_storage.py:1077-1137 | the release is posted again only while it goes unanswered in time, and confirmed only by a 200 |
| LockSession.Session.SafeRelease | cli/box_storage.py:1660-1680 | at most one release is made |
| LockSession.Session.DissolveLock | cli/box_storage.py:1715-1732 | a dissolve stops the heartbeat and cancels the release |
| LockSession.Session.constructor | cli/box_storage.py:1691-1713 | which sessions owe a release, which run a heartbeat, and against which lease |
| LockSession.Session.Suspend | cli/box_storage.py:1734-1737 | suspending pauses the renewals |
| LockSession.Session.Resume | cli/box_storage.py:1738-1742 | resuming starts a new window, unless the session was dissolved |
| LockSession.Session.OnBodyEnd | cli/box_storage.py:1744-1751 | the end of the body stops the heartbeat and makes the release that is due |
| LockSession.Session.OnProcessExit | cli/box_storage.py:1682-1689 | so does the end of the process, if nothing else did |
| LockSession.OneReleasePath | cli/box_storage.py:1657-1751 | over any sequence of body end, process exit and dissolve, one release in total, exactly if the lock was made here and was not dissolved first |
| Crc.Residue | cli/simple_hdlc.py:54-61 | the check bytes match if and only if the CRC of data and check together is zero |
| Crc.CheckValue | cli/simple_hdlc.py:18-22 | the CRC of "123456789" is 0x29B1: the polynomial and start value of the standard |
| Crc.ShiftLinear | cli/simple_hdlc.py:18-22 | the register step is linear |
| Crc.ShiftInjective | cli/simple_hdlc.py:18-22 | and loses nothing |
| Crc.FeedLinear | cli/simple_hdlc.py:18-22 | the CRC of damaged data is the CRC of the data and that of the damage |
| Crc.FeedIsBits | cli/simple_hdlc.py:18-22 | feeding bytes is feeding their bits, most significant first |
| Crc.FeedBitsBackwards | cli/simple_hdlc.py:18-22 | a register that reaches zero within n bits had no bit below its top n |
| Crc.BurstLeavesTrace | cli/simple_hdlc.py:18-22 | no burst of up to sixteen bits has CRC zero |
| Crc.PassesIff | cli/simple_hdlc.py:49-61 | damage passes the check if and only if its own CRC is zero |
| Crc.BurstIsDetected | cli/simple_hdlc.py:49-61 | every burst of up to sixteen bits, anywhere in payload and check, fails it |
| Hdlc.Encode | cli/simple_hdlc.py:131-144 | the loop yields the flags and the stuffed payload and check |
| Hdlc.Frame.AddByte | cli/simple_hdlc.py:39-47 | one byte into a frame, unstuffing |
| Hdlc.Frame.Finish | cli/simple_hdlc.py:49-52 | the last two bytes become the check |
| Hdlc.Receiver.ReadByte | cli/simple_hdlc.py:98-129 | one byte into the receiver: its new state, and the callbacks made |
| Hdlc.StuffingUnstuffs | cli/simple_hdlc.py:39-47 | unstuffing gives stuffed data back, flags and escapes in it included |
| Hdlc.RunFrameReady | cli/simple_hdlc.py:98-144 | a ready decoder delivers an encoded payload, once |
| Hdlc.RunFrameAstray | cli/simple_hdlc.py:98-129 | a decoder inside something else is ready after one frame |
| Hdlc.RoundTrip | cli/simple_hdlc.py:98-144 | a ready decoder delivers any number of frames, once each and in order |
| Hdlc.Resynchronises | cli/simple_hdlc.py:98-144 | whatever bytes came before, every frame but the first is delivered, once, in order and without an error |
| Hdlc.DamagedFrameFails | cli/simple_hdlc.py:54-61 | a frame whose unstuffed payload and check hold a burst of up to sixteen flipped bits goes to the error callback |
| HdlcLine.DamagedLineUnstuffs | cli/simple_hdlc.py:39-47 | stuffed data that is damaged, but for flags and escapes, unstuffs to the data with the damage that falls on its own bytes |
| HdlcLine.BurstIsKept | cli/simple_hdlc.py:131-144 | a burst on the line is still one once the escapes are taken out of it |
| HdlcLine.DamagedLineFails | cli/simple_hdlc.py:98-144 | a frame hit on the line by a burst of up to sixteen bits that makes no flag or escape and breaks none goes to the error callback, and nothing is delivered |
| HdlcLine.FlippedFlagPasses | cli/simple_hdlc.py:98-129 | one flipped bit that makes a flag can pass: every payload has a frame of another that is then received as that payload |
| TokenRefresh.FreshWhenIssued | cli/gateway_auth.py:400-424 | a token just issued counts as fresh exactly when it lives longer than a second and longer than is asked to be left |
| TokenRefresh.FreshIff | cli/gateway_auth.py:412-424 | when any token is good enough: by a minute, by a quarter of its lifetime within bounds, and by the fraction asked for |
| TokenRefresh.MoveKeepsInv | cli/gateway_auth.py:531-576 | reading, waiting, taking and freeing locks keep the invariant |
| TokenRefresh.SendKeepsInv | cli/gateway_auth.py:469-481 | a request that is sent carries the cookie that the server accepts |
| TokenRefresh.TripIsNeeded | cli/gateway_auth.py:562-573 | a refresh is made only if none has failed and the last one's token was found stale under the lock |
| TokenRefresh.EndKeepsInv | cli/gateway_auth.py:475-494 | each outcome of a request, clear or not, rotated or not, keeps it |
| TokenRefresh.SaveKeepsInv | cli/gateway_auth.py:427-436 | writing the whole store under its lock loses nothing that another thread wrote |
| TokenRefresh.RecordingKeepsInv | cli/gateway_auth.py:367-378 | noting a box leaves every session as it was |
| TokenRefresh.GivingUpKeepsInv | cli/gateway_auth.py:573-576 | a failure is remembered for that server |
| TokenRefresh.StepKeepsInv | cli/gateway_auth.py:531-576 | every step keeps the invariant |
| TokenRefresh.SingleFlight | cli/gateway_auth.py:138-144 | at most one refresh per server is in flight |
| TokenRefresh.NoStaleCookie | cli/gateway_auth.py:562-576 | no cookie that a rotation has superseded is ever sent |
| TokenRefresh.FailureIsFinal | cli/gateway_auth.py:119-135 | a failed refresh is never followed by another of that server |
| TokenRefresh.OneTripPerToken | cli/gateway_auth.py:531-576 | callers that find one stale token cause one round trip: the next one comes only once the new token's margin has begun |
| TokenRefresh.NoDeadlock | cli/gateway_auth.py:138-144 | while any call is unfinished, a thread can go on or a request is on its way |
| TokenRefresh.StepsRunOut | cli/gateway_auth.py:450-576 | every step of a call in progress is progress, so that every call returns |
| TokenResults.CallReturns | cli/gateway_auth.py:497-576 | over any run, what each call returns: the token its own request brought; else the stored one, fresh when read, or unexpired if the call gave up; else none, and why |
| TokenResults.AsksOnlyIfItMay | cli/gateway_auth.py:450-481 | a server is asked only for a call that may refresh and found the stored token not good enough after waiting its turn; at most twice |
| TokenResults.StoreLosesNothing | cli/gateway_auth.py:367-436 | whatever is written at one time, every box noted stays noted, and a session whose server granted nothing is as it was |
| TokenResults.RefreshedSessionIsStored | cli/gateway_auth.py:490-494 | a server that granted a refresh, and is neither being settled nor known to be down, has its last token in the store, with the cookie it takes now |
| TokenResults.OnlyARequestRotates | cli/gateway_auth.py:450-494 | that cookie changes exactly when a request made the server replace it |
| DeviceLocks.DeviceLock.LockedCall | box/lager/hardware_service.py:120-151 | busy exactly if the lock was held; the lock stays held exactly if it was or the call hung |
| DeviceLocks.AcquireKeepsLocks | box/lager/hardware_service.py:736-757 | a lock is taken only when free |
| DeviceLocks.TimeOutKeepsLocks | box/lager/hardware_service.py:143-151 | a lock passes to the abandoned operation, and to nothing else |
| DeviceLocks.ReleaseKeepsLocks | box/lager/hardware_service.py:149-151 | only the holder's own lock is freed |
| DeviceLocks.OneAtATime | box/lager/hardware_service.py:120-151 | at most one operation per lock identity is executing, abandoned ones and batch reads included |
| DeviceLocks.HeldForNoOne | box/lager/hardware_service.py:128-151 | a lock that is held for no live request was left by an abandoned operation |
| DeviceLocks.WedgedMeansBusy | box/lager/hardware_service.py:764-772 | from then on, whatever happens, no request gets the lock and each that asks can do nothing but answer busy |
| DeviceLocks.OneWorkPerDriver | box/lager/hardware_service.py:497-528 | while a request has set a shared driver's channel, no other works on that driver |
| DeviceLocks.ActKeepsAligned | box/lager/hardware_service.py:747-749 | setting the channel and calling the function are atomic against other requests |
| DeviceLocks.MoveKeepsSane | box/lager/hardware_service.py:783-875 | cache, eviction and the recovery retry keep drivers and requests matched |
| DeviceLocks.RunsOnItsChannel | box/lager/hardware_service.py:497-528 | every function is called with its driver on the channel that its request names, unless setting it failed |
| DeviceLocks.AgreementIsNeeded | box/lager/hardware_service.py:497-528 | every call of a family runs on the channel that it names if and only if requests that share a driver share its lock and setting a channel that is named does not fail |
| DeviceLocks.CallsWithoutItsChannel | box/lager/hardware_service.py:525-528 | a channel that could not be set is passed over, and the call runs on another |
| DeviceRequests.LockIff | box/lager/hardware_service.py:736-742 | two requests take one lock exactly if they state one device, by id, by address or as any LabJack, or state none and share a driver |
| DeviceRequests.KeyIff | box/lager/hardware_service.py:598-599 | and share a driver exactly if they are for one role at one address, or alike in all they say |
| DeviceRequests.OneAtATimeOnDevice | box/lager/hardware_service.py:1339-1362 | over any run, two operations that have their locks are for different devices as stated, batch reads and abandoned calls included |
| DeviceRequests.WaitsOnlyForItsDevice | box/lager/hardware_service.py:736-757 | a request can take its lock exactly if no operation on its own device holds it, and is told busy only if one does |
| DeviceRequests.NamedIff | box/lager/hardware_service.py:514-518 | the channel that a request names: its channel, or else its pin |
| DeviceRequests.RunsOnNamedChannelIff | box/lager/hardware_service.py:497-528 | over all runs of a family of requests every call is made on the channel it names, if and only if those that share a driver exclude each other and setting one does not fail |
| DeviceRequests.WorkersGoOn | box/lager/hardware_service.py:747-749 | a worker goes on with its call whether or not its request still waits: channel, function, end |
| DeviceRequests.LostDeviceIsReopened | box/lager/hardware_service.py:795-815 | after a device was found gone, no request at its address, of any role, is given a driver from before |
| DeviceRequests.StaleDriverIsReplaced | box/lager/hardware_service.py:783-794 | a driver whose session was stale is not handed out again to anyone it was shared with |
| DeviceRequests.OthersKeepTheirDrivers | box/lager/hardware_service.py:795-815 | and no other driver is evicted |
| DeviceRequests.StaleCallIsMadeAgain | box/lager/hardware_service.py:783-862 | a call that finds its session stale is made once more, on a driver made for it |
| DeviceRequests.AnswersAreTrue | box/lager/hardware_service.py:753-880 | over any run, each answer tells what happened: called and ended, busy, timed out, or refused and why; no function is called more than twice |
| NetsCache.FindByName | box/lager/cache.py:92-104 | the last record of that name, if there is one |
| NetsCache.FindsTheLast | box/lager/cache.py:78-79 | so any record with a name is found by it, unless a later one has it too |
| NetsCache.NetsCache.BuildIndex | box/lager/cache.py:78-79 | the index finds, under each name, its last record |
| NetsCache.NetsCache.ReloadIfNeeded | box/lager/cache.py:49-79 | the list is that of a version between the two looks at the file, and never taken for a version it is not |
| NetsCache.NetsCache.GetNets | box/lager/cache.py:81-90 | so is what callers get, with a writer racing |
| NetsCache.PairedIsCurrent | box/lager/cache.py:67-79 | a stored time equal to the file's means that the cached list is the file's |
| NetsCache.NetsCache.LookUp | box/lager/cache.py:92-104 | looking up a name reloads as needed and finds its last record |
| NetsCache.NetsCache.LookUpWithRole | box/lager/cache.py:106-132 | after the same reload, something is found if and only if a record has both name and role |
| NetsCache.NetsCache.Invalidate | box/lager/cache.py:134-142 | nothing cached is taken for current afterwards |
| RateLimit.RateLimiter.CheckRate | box/lager/safety.py:563-579 | the call is counted, refused or not; no other key is touched |
| RateLimit.WindowsAreApart | box/lager/safety.py:570-576 | windows open in order, a whole length apart |
| RateLimit.CountsUp | box/lager/safety.py:570-576 | calls in one window are counted one by one |
| RateLimit.AtMostPerWindow | box/lager/safety.py:563-579 | at most so many calls are admitted in a window |
| RateLimit.AtMostInAnyInterval | box/lager/safety.py:563-579 | fewer than twice as many in any half-open interval of its length |
| RateLimit.BoundIsReached | box/lager/safety.py:563-579 | and for every cap there are calls that reach that bound |
| RateLimit.SlowIsAdmitted | box/lager/safety.py:563-579 | a call is admitted if the one as many places before it as the cap allows was a window ago |
| RateLimit.KeysAreIndependent | box/lager/safety.py:563-579 | each net and function is counted as if it were alone |
| Safety.Interlock.Resolve | box/lager/safety.py:507-538 | the net a request means, by name or by first match |
| Safety.Interlock.CheckInvocation | box/lager/safety.py:541-560 | the verdict of every branch, and the counters it leaves |
| Safety.Interlock.Check | box/lager/safety.py:347-411 | the same for an identified net, with a stated role or the saved one: trip, setpoint, inline trips, rate, in this order |
| Safety.RefusedIsNotCounted | box/lager/safety.py:384-411 | a call refused for what it asks leaves every counter as it was |
| InterlockRuns.ResolvesTo | box/lager/safety.py:519-538 | a stated name is taken; without one, the first named net at the address, on the channel if one is stated |
| InterlockRuns.CountedIff | box/lager/safety.py:563-579 | a call is counted exactly if it is of a capped method, on a supply, battery or load with limits, and asks for nothing it must not |
| InterlockRuns.TooOftenIff | box/lager/safety.py:408-411 | over any run of calls on any nets, a call is refused as too frequent if and only if its place among the counted ones of its net and method is not admitted |
| InterlockRuns.AtMostInAWindowAllowed | box/lager/safety.py:563-579 | so of each net and method no more calls than the cap are let through in a window |
| InterlockRuns.AtMostInAnyIntervalAllowed | box/lager/safety.py:563-579 | and fewer than twice as many in any interval of its length |
| InterlockRuns.SlowCallsAreAllowed | box/lager/safety.py:563-579 | a net that is not driven that hard is never refused |
| InterlockRuns.UnsafeBeforeTooOften | box/lager/safety.py:367-411 | an unsafe call is told so, and never that it is too frequent |
| InterlockRuns.RefusalsAreTrue | box/lager/safety.py:383-408 | what a refusal says of a trip, or of a number above a ceiling, is true; a call that is not refused asks for nothing above one |
| InterlockRuns.UnidentifiedIff | box/lager/safety.py:541-560 | a call for no known net is refused exactly if some net might guard it and some net has limits |
| InterlockRuns.UnlimitedIsAllowed | box/lager/safety.py:282-411 | a net without a role or limits is held to nothing, and one of another role only to its trips |
| Instruments.AllowedIff | box/lager/safety.py:301-411 | the values of a call pass exactly if no number that is looked at is above its ceiling and no trip behind a ceiling is turned off |
| Instruments.CoveredStaysWithin | box/lager/safety.py:301-411 | an effect that is covered, of a call that passes, leaves the limits alone |
| Instruments.ReachesIff | box/lager/hardware_service.py:506-518 | a request keeps away from a saved net's instrument only by stating another address, or another channel or pin |
| Instruments.StaysWithin | box/lager/hardware_service.py:586-590 | registers and trips stay inside a saved net's limits over any run, retries included, if the calls are covered and whatever reaches the instrument is held to limits no wider |
| Instruments.UncoveredBreaks | box/lager/safety.py:301-411 | an effect that is not covered breaks some limits under which its call passes |
| Instruments.CoverageIsNeeded | box/lager/hardware_service.py:586-590 | for any drivers and calls: every run stays within its limits, whatever these are, if and only if every effect of every call is covered |
| Instruments.UnheldRequestBreaks | box/lager/safety.py:507-538 | a request that reaches an instrument, and is taken for a net with wider limits, can break those of the net behind it |
| Instruments.HoldingIsNeeded | box/lager/safety.py:507-538 | for any saved nets and requests: every run of covered calls stays within a net's limits if and only if each request that reaches its instrument is taken for a net with limits no wider |
| Instruments.SeenIff | box/lager/safety.py:160-208 | a way of calling is covered for all arguments exactly if each parameter given that writes a limited register is where the interlock looks |
| Instruments.TablesDecide | box/lager/safety.py:160-208 | so runs stay within their limits if and only if every method that writes a limited register is in the interlock's tables, and takes its argument where it looks |
| DriverTables.SupplyRegisters | box/lager/power/supply/rigol_dp700.py:370-550 | register by register, which methods of a supply set it, and which turn its trips off |
| DriverTables.EloadRegisters | box/lager/power/eload/rigol_dl3021.py:124-292 | which methods of an electronic load set each register |
| DriverTables.BatteryRegisters | box/lager/power/battery/keithley.py:200-760 | which methods of a battery simulator do |
| DriverTables.SupplyShapes | box/lager/power/supply/rigol_dp700.py:370-550 | which ways of calling a supply are seen: not its raw setters, and not the trips by position |
| DriverTables.EloadShapes | box/lager/power/eload/rigol_dl3021.py:124-292 | which of an electronic load: only the two legacy setters, by position |
| DriverTables.BatteryShapes | box/lager/power/battery/keithley.py:200-760 | which of a battery simulator: all but the second names of its setters |
| DriverTables.EloadCurrentPasses | box/lager/power/eload/rigol_dl3021.py:124-132 | the documented `current(40.0)` passes, above a ceiling of 2.0 |
| DriverTables.OwnKeywordPasses | box/lager/power/eload/rigol_dl3021.py:134-136 | so does `set_current(current=40.0)` |
| DriverTables.TripSetterPasses | box/lager/power/supply/rigol_dp700.py:459-460 | and so does the raw setter of a supply's trip |
| DriverTables.OtherNamePasses | box/lager/safety.py:522-524 | a request with the address of a limited net and the name of another is checked as the other |
| DriverTables.FirstNetPasses | box/lager/safety.py:526-538 | a request without a name is checked as the first net at its address |
| DriverTables.PassesBreaks | box/lager/hardware_service.py:586-590 | each of these calls takes an instrument out of its limits |
| OutputProtocol.DecimalRoundTrip | cli/context/session.py:67-71 | a number, a negative one included, reads back as it was written |
| OutputProtocol.IterStreams | cli/core/matchers.py:59-94 | the parser's loop, byte by byte |
| OutputProtocol.FrameRoundTrip | cli/core/matchers.py:70-94 | a frame comes back as it was sent |
| OutputProtocol.LinesOf | cli/context/session.py:92-109 | lines cut off as they complete are the first lines of the whole |
| OutputProtocol.FlushLines | cli/context/session.py:92-109 | complete lines are sent and the rest is kept |
| OutputProtocol.IterContent | cli/context/session.py:51-154 | however the reads fall, what the parser makes of the yielded bytes is the lines of each stream, frame by frame, and then the exit code |
| OutputProtocol.NothingIsLost | cli/core/matchers.py:59-94 | so each stream's payloads join to exactly what was read from it, and one exit code comes, last |
| OutputFields.DigitsIff | cli/core/matchers.py:78-79 | which texts are the digits of a number, and which number |
| OutputFields.ParseIntIff | cli/core/matchers.py:78-79 | which texts are read as a number: spaces, a sign or none, digits, spaces |
| OutputFields.LengthIsFollowed | cli/core/matchers.py:77-86 | after a length the parser takes as much content as it says, or for nought goes on with the next frame; a length that is no number breaks the stream |
| OutputFields.NegativeLengthNeverEnds | cli/core/matchers.py:87-94 | a length below zero is never reached, whatever comes |
| OutputFields.OtherBytesBreak | cli/core/matchers.py:69-74 | a first byte that is neither a digit nor a dash breaks the stream for good |
| OutputFields.EveryReadCounts | cli/context/session.py:111-154 | what is taken for read holds each read in its place, and nothing else |
| UnityMatcher.UnityMatcher.Feed | cli/core/matchers.py:107-133 | one piece of output: the echoes, and the state it leaves |
| UnityMatcher.PiecesDoNotMatter | cli/core/matchers.py:107-133 | feeding two pieces is feeding both at once |
| UnityMatcher.OnlyTheOutputMatters | cli/core/matchers.py:107-133 | echoes and verdict depend on the output, not on how it was cut |
| UnityMatcher.ColorsTellTheTruth | cli/core/matchers.py:107-139 | every finished line is echoed once, in order and in its colour; in the summary red, and the verdict a failure, exactly if a line before the separator reports one |
| GatewayTunnel.GatewayTunnel.Track | cli/gateway_tunnel.py:479-484 | a socket is registered unless the tunnel is closed |
| GatewayTunnel.GatewayTunnel.Close | cli/gateway_tunnel.py:461-471 | the listener and all that was registered are closed |
| GatewayTunnel.GatewayTunnel.Handle | cli/gateway_tunnel.py:491-533 | every path of a handler closes its sockets and takes them off the register |
| GatewayTunnel.StepKeepsTracked | cli/gateway_tunnel.py:461-489 | what is registered stays on the register until it is closed or a close has it |
| GatewayTunnel.NothingJoinsAfterClose | cli/gateway_tunnel.py:461-484 | after the critical section of a close nothing is registered ever again |
| GatewayTunnel.EndedMeansClosed | cli/gateway_tunnel.py:491-533 | an open socket always has a handler that will still close it |
| GatewayTunnel.CloseLeavesNothing | cli/gateway_tunnel.py:461-471 | once every close that took anything has returned, no registered socket is open, and the listener is not |
| GatewayTunnel.SecondCloseMayReturnFirst | cli/gateway_tunnel.py:461-471 | a second close may return while the first still has sockets to close |
| GatewayTunnel.OneCallIsEnough | cli/gateway_tunnel.py:461-471 | if close is called once, nothing registered is open when it has returned |
| GatewayTunnel.OnlyOneCallIsSafe | cli/gateway_tunnel.py:461-471 | over all runs with at most n calls of close, a call that has returned leaves nothing registered open if and only if n is at most one |
| TunnelRuns.RegisterIsExact | cli/gateway_tunnel.py:479-533 | over any run, what is registered and which sockets are open is exactly what the handlers make of it, until a close is past its critical section |
| TunnelRuns.OpenTunnelIsServed | cli/gateway_tunnel.py:491-524 | a connection whose tunnel opens is served on both sockets |
| TunnelRuns.OthersAreDropped | cli/gateway_tunnel.py:492-522 | one whose tunnel does not open, or that comes after a close, is dropped |
| TunnelRuns.EveryHandlerEnds | cli/gateway_tunnel.py:491-533 | however the threads interleave, a handler ends in at most seven steps, with neither socket open or registered |
| TunnelRuns.CloserGoesOn | cli/gateway_tunnel.py:461-471 | every step of a call of close brings it nearer to its return |
| TunnelRuns.CloserCloses | cli/gateway_tunnel.py:461-471 | it closes what it took: what was registered, and the listener |
| TunnelRuns.NothingIsAcceptedAfterClose | cli/gateway_tunnel.py:427-446 | after that no connection is accepted |
| LineKinds.HeadingIff | tools/check_translations.py:222 | which lines are headings, by position |
| LineKinds.TableRowIff | tools/check_translations.py:225 | which are table rows |
| LineKinds.BulletIff | tools/check_translations.py:223 | which are bullets |
| LineKinds.NumberedIff | tools/check_translations.py:224 | which are numbered items |
| LineKinds.KindIff | tools/check_translations.py:281-291 | a line counts once: as a heading first, then a table row, a bullet, a numbered item |
| LineKinds.BlockStartIff | tools/check_translations.py:235-236 | which open a block |
| LineKinds.FenceIff | tools/check_translations.py:221 | which are fences, of what mark and length |
| LineKinds.BlockGoesOn | tools/check_translations.py:249-271 | a code block goes on until a fence of its own mark and at least its length, whatever other fences come, and all its lines are inside |
| LineKinds.PlainStaysOutside | tools/check_translations.py:249-271 | outside a block, a line that is no fence is outside and opens none |
| LineKinds.BlocksAreCounted | tools/check_translations.py:249-271 | the blocks are counted by the lines that open them |
| LineKinds.RuleIff | tools/check_translations.py:239-246 | which are the rules around front matter |
| LineKinds.WrapsIff | tools/check_translations.py:350-358 | exactly which breaks outside code are soft |
| LineKinds.BodyIff | tools/check_translations.py:239-246 | where the page begins: after the first rule that ends what a rule on the first line began |
| LineKinds.StructureIsCounted | tools/check_translations.py:274-292 | the structure counts, for each kind, the lines of that kind outside code, and the blocks |
| Reflow.KindJoined | tools/check_translations.py:221-236 | joining lines changes neither what the first is nor whether it opens a fence |
| Reflow.NumberGrows | tools/check_translations.py:224-236 | full-width digits that are joined never become a list item |
| Reflow.BlockStartJoined | tools/check_translations.py:235-236 | a line that opens a block still does |
| Reflow.Fenced | tools/check_translations.py:249-271 | the loop marks the lines inside code blocks, counts the blocks and tells whether one is open |
| Reflow.Body | tools/check_translations.py:239-246 | where the page begins |
| Reflow.SoftBreaks | tools/check_translations.py:331-358 | the soft breaks, all of them and in order |
| Reflow.Reflow | tools/check_translations.py:361-377 | the loop that joins lines in place |
| Reflow.BodyIsKept | tools/check_translations.py:239-246 | the front matter stays, and nothing becomes front matter |
| Reflow.ReachesItsFixpoint | tools/check_translations.py:331-377 | after one pass there is no soft break left |
| Reflow.StructureIsKept | tools/check_translations.py:274-292 | every structure count and the fence balance are as before |
| Reflow.TextIsKept | tools/check_translations.py:361-377 | each line of the result is made of the lines between two hard breaks, less leading white space |
| ApiSurface.DirectIff | tools/box_api_surface.py:127-147 | a name is among those a function dispatches on itself exactly if a node compares the action with it, or looks the action up where it stands |
| ApiSurface.CalleesIff | tools/box_api_surface.py:147-151 | a helper is followed exactly if it is of the module and is called with the action |
| ApiSurface.Search | tools/box_api_surface.py:117-152 | one depth-first visit: what it adds is reached, and closed under calls; it ends on circular calls |
| ApiSurface.ActionNames | tools/box_api_surface.py:117-152 | exactly the names dispatched on over all chains of calls that do not return to the function's name |
| ApiSurface.AllNamesAreFound | tools/box_api_surface.py:117-152 | those are all the names there are if and only if whatever else has the function's name adds none of its own |
| ApiSurface.NamesakeIsPassedOver | tools/box_api_surface.py:188-199 | a helper with the name of a nested function is passed over |
| ApiSurface.SetLines | tools/box_api_surface.py:295-307 | nothing is reported exactly if the sets are equal, and what is reported leads from one to the other |
| ApiSurface.KeyedLines | tools/box_api_surface.py:310-328 | one row for each key that differs |
| ApiSurface.Diff | tools/box_api_surface.py:331-363 | a report exactly if something differs by section and key, and it leads from the old surface to the new |

## Left out

- `box/lager/lock_state.py`: file permissions, fsync, the temporary file of a replace, damaged JSON; a record is read and written as a value.
- LockState.LockServer.ReadLock: time stamps without a zone, in files edited by hand, are not modelled.
- HolderRule.OursIff: digits are ASCII digits, lower case is that of ASCII letters, and a line break before the end of a holder is not special.
- LockClients.MutualExclusion: two commands with one holder string are outside it (the second resumes the first one's lock), as are forced unlocks and commands that went on without a lock.
- Heartbeat.WarnsBeforeLoss: a resumption that races the thread's own wake-up is not modelled; signals come one at a time.
- LockThreads.Linearizable: the clock is read at the steps shown; a lease that ends inside one guarded operation counts from its read.
- `auto_lock_acquire_for_command`, and `boxes unlock` of sibling locks.
- `cli/gateway_auth.py`: pinned tokens, `login` and `logout` while calls are in progress, `wait_for_refreshes`, stores that cannot be written, and a second process on the same store.
- TokenRefresh.StepsRunOut: an upper bound on steps, not on time; a request that never ends is bounded by its own timeout.
- `box/lager/hardware_service.py`: building a driver, closing an evicted one, shared VISA sessions and self-restart; `/cache/clear` and `/cache/clear_all`, which discard the lock table.
- DeviceLocks.OneAtATime: the table that creates each lock on first use, under a lock of its own, stands as one lock for every identity; how long a wait or a deadline is does not matter, only that it passed.
- DeviceLocks.RunsOnItsChannel: cache keys hold the whole net description in place of its hashable form, and no address reads like one.
- NetsCache.PairedIsCurrent: does not hold where two versions of the file share a modification time.
- Safety.Interlock.CheckInvocation: `check_destructive` and the environment settings of the cap are not modelled; window and cap are fixed over a run, and limits are numbers or absent.
- Instruments.StaysWithin: arguments are finite; text that reads as a number counts as one, and other text sets nothing. An instrument has one address. A request without an address may reach any instrument.
- DriverTables.SupplyShapes: the tables hold the methods that set a register of one instrument; battery models, and text that is passed on to an instrument as it is, are not in them.
- OutputProtocol.IterStreams: in a length, decimal digits and blanks other than those of ASCII count as failures, and it may have any number of digits.
- OutputProtocol.IterContent: `select`, non-blocking reads and process exit are the schedule of reads.
- GatewayTunnel.CloseLeavesNothing: `_read_head`, `_splice` and the CONNECT exchange are one step that may end in any way.
- Reflow.TextIsKept: a page is its lines; reading and writing the file, and line ends other than a newline, are left out. Decimal digits and white space are those of Unicode 14.
- ApiSurface.Diff: the Markdown text and the order of its lines.
- ApiSurface.ActionNames: the syntax tree is reduced to the nodes that the search looks at.
- HdlcLine.DamagedLineFails: bits that are lost or added, and bursts that hit the flags around a frame.
- `EndsWithMatcher`, whose output depends on how its input is cut, and the other matchers.
- The remaining parsers, configuration and net storage, schedules, run records, adapters and documentation checks.
