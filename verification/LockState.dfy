/**
  The box lock: one record in a file, changed by four HTTP operations.

  The file holds at most one lock record.  Every operation first reads it and
  reaps it when its lease has run out; acquire, heartbeat and release may then
  replace or remove it.  Times are microseconds; the stamps that go into the
  record are whole seconds.
*/
module LockState {
  import opened Options

  const SECOND := 1_000_000

  /** A timestamp field of the record: a whole second, or text that does not parse. */
  datatype Stamp = At(sec: int) | Unreadable

  /** The record on disk.  Older servers left fields out, so most are optional. */
  datatype Lock = Lock(
    user: string,
    holderType: Option<string>,
    lockedAt: Option<Stamp>,
    lastHeartbeat: Option<Stamp>,
    ttl: Option<int>)

  /** The `holder_type` and `ttl_seconds` payload fields, as decoded from JSON. */
  datatype HolderArg = HolderAbsent | HolderText(text: string) | HolderOther
  datatype TtlArg =
    | TtlAbsent
    | TtlNull                 // JSON null, or the texts "null", "none" and ""
    | TtlIntegral(n: int)     // anything that int() accepts
    | TtlInfinite             // an infinite number, at which int() overflows
    | TtlGarbage

  datatype Op =
    | Status
    | Acquire(user: string, holder: HolderArg, ttl: TtlArg)
    | Heartbeat(user: string)
    | Release(user: string, force: bool)

  datatype Reply =
    | BadRequest                                       // 400
    | ServerError                                      // 500
    | Unheld                                           // status: 200
    | Shown(lock: Lock)                                // status: 200
    | Granted(lock: Lock, previous: Option<string>)    // acquire: 200
    | Conflict(lock: Lock)                             // acquire: 409
    | Renewed(lock: Lock)                              // heartbeat: 200
    | NothingHeld                                      // heartbeat: 404
    | Refused(lock: Lock)                              // heartbeat, release: 403
    | AlreadyUnlocked                                  // release: 200
    | Unlocked                                         // release: 200

  /** What an operation answers, and the record it leaves behind. */
  datatype Outcome = Outcome(reply: Reply, record: Option<Lock>)

  // -------------------------------------------------------------------------
  // Expiry
  // -------------------------------------------------------------------------

  function StampOf(now: int): Stamp {
    At(now / SECOND)
  }

  /** The stamp that expiry counts from: the heartbeat, or else the acquire. */
  function LeaseStart(lock: Lock): Option<Stamp> {
    if lock.lastHeartbeat.Some? then lock.lastHeartbeat else lock.lockedAt
  }

  predicate Expired(lock: Lock, now: int) {
    && lock.ttl.Some?
    && LeaseStart(lock).Some?
    && LeaseStart(lock).value.At?
    && now - LeaseStart(lock).value.sec * SECOND > lock.ttl.value * SECOND
  }

  /** The record as a reader at `now` sees it. */
  function Live(record: Option<Lock>, now: int): Option<Lock> {
    if record.Some? && Expired(record.value, now) then None else record
  }

  // -------------------------------------------------------------------------
  // Payload normalization
  // -------------------------------------------------------------------------

  /** Only these two classifications may be rewritten by a re-acquire. */
  predicate IsAutoType(holderType: Option<string>) {
    holderType == Some("ephemeral") || holderType == Some("ci")
  }

  function NormalizeHolder(arg: HolderArg): string {
    if arg.HolderText? && arg.text != "" then arg.text else "ephemeral"
  }

  function NormalizeTtl(arg: TtlArg): Option<int> {
    match arg
    case TtlNull => None
    case TtlIntegral(n) => Some(if n < 1 then 1 else n)
    case _ => Some(1800)
  }

  /** The classification and lease that an acquire payload asks for. */
  function Requested(holder: HolderArg, ttl: TtlArg): (string, Option<int>) {
    if holder.HolderAbsent? && ttl.TtlAbsent? then
      ("user", None)
    else
      var kind := NormalizeHolder(holder);
      (kind, if ttl.TtlAbsent? then (if kind == "user" then None else Some(1800)) else NormalizeTtl(ttl))
  }

  // -------------------------------------------------------------------------
  // The four operations as one atomic step
  // -------------------------------------------------------------------------

  /** An empty user and an infinite lease are turned away before the file is touched. */
  predicate Malformed(op: Op) {
    (!op.Status? && op.user == "") || (op.Acquire? && op.ttl.TtlInfinite?)
  }

  function TurnedAway(op: Op): Reply {
    if !op.Status? && op.user == "" then BadRequest else ServerError
  }

  /** The record a successful acquire writes over a live record of the same user, or over none. */
  function Taken(live: Option<Lock>, user: string, holder: HolderArg, ttl: TtlArg, now: int): Lock {
    var (kind, lease) := Requested(holder, ttl);
    match live
    case Some(held) =>
      var kept := held.(user := user, lastHeartbeat := Some(StampOf(now)));
      if IsAutoType(held.holderType) then kept.(holderType := Some(kind), ttl := lease) else kept
    case None =>
      Lock(user, Some(kind), Some(StampOf(now)), Some(StampOf(now)), lease)
  }

  /** What an operation does to a record that is known to be live. */
  function ApplyLive(op: Op, live: Option<Lock>, writeAt: int): Outcome {
    if Malformed(op) then Outcome(TurnedAway(op), live)
    else
      match op
      case Status =>
        Outcome(if live.Some? then Shown(live.value) else Unheld, live)
      case Acquire(user, holder, ttl) =>
        if live.Some? && live.value.user != user then
          Outcome(Conflict(live.value), live)
        else
          var lock := Taken(live, user, holder, ttl, writeAt);
          Outcome(Granted(lock, if live.Some? then Some(live.value.user) else None), Some(lock))
      case Heartbeat(user) =>
        if live.None? then
          Outcome(NothingHeld, live)
        else if live.value.user != user then
          Outcome(Refused(live.value), live)
        else
          var lock := live.value.(lastHeartbeat := Some(StampOf(writeAt)));
          Outcome(Renewed(lock), Some(lock))
      case Release(user, force) =>
        if live.None? then
          Outcome(AlreadyUnlocked, live)
        else if live.value.user != user && !force then
          Outcome(Refused(live.value), live)
        else
          Outcome(Unlocked, None)
  }

  /** An operation that reads the clock twice: for the expiry test, and for the stamp it writes. */
  function Apply(op: Op, record: Option<Lock>, readAt: int, writeAt: int): Outcome {
    if Malformed(op) then Outcome(TurnedAway(op), record)
    else ApplyLive(op, Live(record, readAt), writeAt)
  }

  // -------------------------------------------------------------------------
  // The server as the code has it: one file, changed in place under a guard
  // -------------------------------------------------------------------------

  class LockServer {
    var file: Option<Lock>
    var guarded: bool

    constructor (initial: Option<Lock>)
      ensures file == initial && !guarded
    {
      file := initial;
      guarded := false;
    }

    method EnterGuard()
      requires !guarded
      modifies this`guarded
      ensures guarded
    {
      guarded := true;
    }

    method ExitGuard()
      requires guarded
      modifies this`guarded
      ensures !guarded
    {
      guarded := false;
    }

    method ClearLock()
      requires guarded
      modifies this`file
      ensures file == None
    {
      file := None;
    }

    method WriteLock(lock: Lock)
      requires guarded
      modifies this`file
      ensures file == Some(lock)
    {
      file := Some(lock);
    }

    /** Reads the record and removes it when its lease has run out. */
    method ReadLock(now: int) returns (live: Option<Lock>)
      requires guarded
      modifies this`file
      ensures live == Live(old(file), now) && file == live
    {
      var raw := file;
      if raw.None? {
        return None;
      }
      if Expired(raw.value, now) {
        ClearLock();
        return None;
      }
      live := raw;
    }

    method GetStatus(readAt: int) returns (reply: Reply)
      requires !guarded
      modifies this
      ensures !guarded
      ensures Outcome(reply, file) == Apply(Status, old(file), readAt, readAt)
    {
      EnterGuard();
      var lock := ReadLock(readAt);
      ExitGuard();
      if lock.Some? {
        return Shown(lock.value);
      }
      reply := Unheld;
    }

    method AcquireLock(user: string, holder: HolderArg, ttl: TtlArg, readAt: int, writeAt: int)
      returns (reply: Reply)
      requires !guarded
      modifies this
      ensures !guarded
      ensures Outcome(reply, file) == Apply(Acquire(user, holder, ttl), old(file), readAt, writeAt)
    {
      if user == "" {
        return BadRequest;
      }
      var kind: string, lease: Option<int>;
      if holder.HolderAbsent? && ttl.TtlAbsent? {
        kind, lease := "user", None;
      } else {
        kind := NormalizeHolder(holder);
        if ttl.TtlAbsent? {
          lease := if kind == "user" then None else Some(1800);
        } else if ttl.TtlInfinite? {
          return ServerError;
        } else {
          lease := NormalizeTtl(ttl);
        }
      }

      EnterGuard();
      var existing := ReadLock(readAt);
      var previous: Option<string> := None;
      if existing.Some? {
        previous := Some(existing.value.user);
        if existing.value.user != user {
          ExitGuard();
          return Conflict(existing.value);
        }
      }
      var now := StampOf(writeAt);
      var renewed: Lock;
      if existing.Some? {
        renewed := existing.value.(user := user, lastHeartbeat := Some(now));
        if IsAutoType(existing.value.holderType) {
          renewed := renewed.(holderType := Some(kind), ttl := lease);
        }
      } else {
        renewed := Lock(user, Some(kind), Some(now), Some(now), lease);
      }
      WriteLock(renewed);
      ExitGuard();
      reply := Granted(renewed, previous);
    }

    method RenewLock(user: string, readAt: int, writeAt: int) returns (reply: Reply)
      requires !guarded
      modifies this
      ensures !guarded
      ensures Outcome(reply, file) == Apply(Heartbeat(user), old(file), readAt, writeAt)
    {
      if user == "" {
        return BadRequest;
      }
      EnterGuard();
      var existing := ReadLock(readAt);
      if existing.None? {
        ExitGuard();
        return NothingHeld;
      }
      if existing.value.user != user {
        ExitGuard();
        return Refused(existing.value);
      }
      var renewed := existing.value.(lastHeartbeat := Some(StampOf(writeAt)));
      WriteLock(renewed);
      ExitGuard();
      reply := Renewed(renewed);
    }

    method ReleaseLock(user: string, force: bool, readAt: int) returns (reply: Reply)
      requires !guarded
      modifies this
      ensures !guarded
      ensures Outcome(reply, file) == Apply(Release(user, force), old(file), readAt, readAt)
    {
      if user == "" {
        return BadRequest;
      }
      EnterGuard();
      var lock := ReadLock(readAt);
      if lock.None? {
        ExitGuard();
        return AlreadyUnlocked;
      }
      if lock.value.user != user && !force {
        ExitGuard();
        return Refused(lock.value);
      }
      ClearLock();
      ExitGuard();
      reply := Unlocked;
    }
  }
}
