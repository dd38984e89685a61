/**
  The interlock in front of the instruments: it refuses a command that would
  exceed a ceiling that the saved net declares, or turn off the trip behind it.
*/
module Safety {
  import opened Options
  import opened NetsCache
  import opened RateLimit

  /** Driver methods that the interlock does not know, some of which write what it guards. */
  datatype Other =
    | SetChannelVoltage | SetChannelCurrent | SetOvpValue | SetOcpValue
    | ApplySetpoint
    | SetVoc | SetVoltFull | SetVoltEmpty | SetCurrentLimit | SetOvp | SetOcp
    | OtherMethod(name: string)

  /** The driver methods that it knows by name. */
  datatype Func =
    | Voltage | Current | Ovp | Ocp
    | Voc | VoltageFull | VoltageEmpty | CurrentLimit
    | SetCurrent | SetVoltage
    | ClearOvp | ClearOcp | Enable | Disable
    | DisableOcp | DisableOvercurrentProtection | DisableOvp | DisableOvervoltageProtection
    | Unlisted(name: Other)

  datatype Kind = MaxVoltage | MaxCurrent

  /** An argument.  `Number` includes text that reads as one; `Text` is any other. */
  datatype Value = Null | Number(value: real) | Flag(on: bool) | Text

  /** The name of a parameter: one of the three that the interlock looks for, or another. */
  datatype Name = ValueName | OvpName | OcpName | OwnName(text: string)

  /** A call of a method of the driver of some device, with positional and keyword arguments. */
  datatype Call = Call(device: string, func: Func, args: seq<Value>, kwargs: map<Name, Value>)

  /** What a request says of its net; "" where it says nothing. */
  datatype Info = Info(name: string, address: string, channel: Option<string>, pin: Option<string>)

  datatype Verdict =
    | Allowed
    | LimitExceeded(kind: Kind)
    | ProtectionStaysOn(kind: Kind)
    | TooOften
    | Unidentified

  type Windows = map<(string, Func), Window>

  // -------------------------------------------------------------------------
  // The tables
  // -------------------------------------------------------------------------

  function ValueLimit(role: Role, func: Func): Option<Kind> {
    match role
    case OtherRole(_) => None
    case Battery =>
      if func.Voc? || func.VoltageFull? || func.VoltageEmpty? || func.Ovp? then Some(MaxVoltage)
      else if func.CurrentLimit? || func.Ocp? then Some(MaxCurrent)
      else None
    case Eload =>
      if func.SetCurrent? then Some(MaxCurrent)
      else if func.SetVoltage? then Some(MaxVoltage)
      else None
    case _ =>
      if func.Voltage? || func.Ovp? then Some(MaxVoltage)
      else if func.Current? || func.Ocp? then Some(MaxCurrent)
      else None
  }

  function ProtectionOff(func: Func): Option<Kind> {
    match func
    case DisableOcp => Some(MaxCurrent)
    case DisableOvercurrentProtection => Some(MaxCurrent)
    case DisableOvp => Some(MaxVoltage)
    case DisableOvervoltageProtection => Some(MaxVoltage)
    case _ => None
  }

  /** Everything with a value check for some role, the output switches, and clearing a trip. */
  predicate RateLimited(func: Func) {
    !func.Unlisted? && ProtectionOff(func).None?
  }

  predicate PossiblyGuarded(func: Func) {
    RateLimited(func) || ProtectionOff(func).Some?
  }

  /** A net that is not saved, or whose record states no role, is not guarded. */
  predicate IsGuarded(role: Option<Role>, func: Func) {
    && role.Some? && role.value != OtherRole("")
    && (ValueLimit(role.value, func).Some? || ProtectionOff(func).Some? || (!role.value.OtherRole? && RateLimited(func)))
  }

  function Ceiling(limits: Limits, kind: Kind): Option<real> {
    match kind
    case MaxVoltage => limits.maxVoltage
    case MaxCurrent => limits.maxCurrent
  }

  function Abs(x: real): real {
    if x < 0.0 then -x else x
  }

  /** Only numbers are held against a ceiling. */
  predicate Exceeds(limits: Limits, kind: Kind, requested: Value) {
    requested.Number? && Ceiling(limits, kind).Some? && Abs(requested.value) > Ceiling(limits, kind).value
  }

  function Keyword(call: Call, name: Name): Value {
    if name in call.kwargs then call.kwargs[name] else Null
  }

  /** The setpoint is looked for under its keyword first. */
  function ExtractValue(call: Call): Value {
    if !Keyword(call, ValueName).Null? then Keyword(call, ValueName)
    else if call.args != [] then call.args[0]
    else Null
  }

  // -------------------------------------------------------------------------
  // The check
  // -------------------------------------------------------------------------

  /** The trip first, then the setpoint, then the trips given along with it. */
  function ValueVerdict(role: Role, limits: Limits, call: Call): Verdict {
    var off := ProtectionOff(call.func);
    var limit := ValueLimit(role, call.func);
    if off.Some? && Ceiling(limits, off.value).Some? then ProtectionStaysOn(off.value)
    else if limit.Some? && Exceeds(limits, limit.value, ExtractValue(call)) then LimitExceeded(limit.value)
    else if Exceeds(limits, MaxVoltage, Keyword(call, OvpName)) then LimitExceeded(MaxVoltage)
    else if Exceeds(limits, MaxCurrent, Keyword(call, OcpName)) then LimitExceeded(MaxCurrent)
    else Allowed
  }

  predicate Matches(record: Record, info: Info) {
    && record.address == info.address && (info.channel.Some? ==> record.channel == info.channel)
    && record.name.Some? && record.name.value != ""
  }

  function FirstMatch(nets: seq<Record>, info: Info): Option<string> {
    if nets == [] then None
    else if Matches(nets[0], info) then nets[0].name
    else FirstMatch(nets[1..], info)
  }

  /** By name, or else by address and channel. */
  function ResolveNetName(nets: seq<Record>, info: Info): Option<string> {
    if info.name != "" then Some(info.name)
    else if info.address == "" then None
    else FirstMatch(nets, info)
  }

  predicate AnyLimits(nets: seq<Record>) {
    exists k :: 0 <= k < |nets| && nets[k].limits.Some?
  }

  /**
    The verdict on a call on a net, and the call counts that it leaves.  A caller
    that has resolved the role may state it; otherwise the saved net says.
  */
  function CheckedNet(nets: seq<Record>, windows: Windows, name: string, stated: Option<Role>, call: Call,
                      now: real, length: real, maxCalls: nat): (Verdict, Windows)
  {
    var record := FindByName(nets, name);
    var role := if stated.Some? || record.None? then stated else record.value.role;
    if !IsGuarded(role, call.func) || record.None? || record.value.limits.None? then (Allowed, windows)
    else
      var verdict := ValueVerdict(role.value, record.value.limits.value, call);
      if verdict != Allowed || !RateLimited(call.func) then (verdict, windows)
      else
        var counted := CountedAt(windows, (name, call.func), now, length);
        (if counted[(name, call.func)].count > maxCalls then TooOften else Allowed, counted)
  }

  function Checked(nets: seq<Record>, windows: Windows, info: Info, call: Call, now: real, length: real, maxCalls: nat)
    : (Verdict, Windows)
  {
    match ResolveNetName(nets, info)
    case None => (if PossiblyGuarded(call.func) && AnyLimits(nets) then Unidentified else Allowed, windows)
    case Some(name) => CheckedNet(nets, windows, name, None, call, now, length, maxCalls)
  }

  class Interlock {
    const rates: RateLimiter<(string, Func)>

    constructor ()
      ensures fresh(rates) && rates.windows == map[]
    {
      rates := new RateLimiter();
    }

    method Resolve(nets: seq<Record>, info: Info) returns (name: Option<string>)
      ensures name == ResolveNetName(nets, info)
    {
      if info.name != "" {
        return Some(info.name);
      }
      if info.address == "" {
        return None;
      }
      for k := 0 to |nets|
        invariant FirstMatch(nets, info) == FirstMatch(nets[k..], info)
      {
        if nets[k].address == info.address && (info.channel.None? || nets[k].channel == info.channel) {
          if nets[k].name.Some? && nets[k].name.value != "" {
            return nets[k].name;
          }
        }
      }
      name := None;
    }

    method AnyLimitsConfigured(nets: seq<Record>) returns (found: bool)
      ensures found == AnyLimits(nets)
    {
      for k := 0 to |nets|
        invariant forall earlier :: 0 <= earlier < k ==> nets[earlier].limits.None?
      {
        if nets[k].limits.Some? {
          return true;
        }
      }
      found := false;
    }

    method CheckInvocation(nets: seq<Record>, info: Info, call: Call, now: real, length: real, maxCalls: nat)
      returns (verdict: Verdict)
      modifies rates
      ensures (verdict, rates.windows) == Checked(nets, old(rates.windows), info, call, now, length, maxCalls)
    {
      var name := Resolve(nets, info);
      if name.None? {
        var any := AnyLimitsConfigured(nets);
        return if PossiblyGuarded(call.func) && any then Unidentified else Allowed;
      }
      verdict := Check(nets, name.value, None, call, now, length, maxCalls);
    }

    method Check(nets: seq<Record>, name: string, stated: Option<Role>, call: Call, now: real, length: real, maxCalls: nat)
      returns (verdict: Verdict)
      modifies rates
      ensures (verdict, rates.windows) == CheckedNet(nets, old(rates.windows), name, stated, call, now, length, maxCalls)
    {
      var record := FindByName(nets, name);
      var role := stated;
      if role.None? && record.Some? {
        role := record.value.role;
      }
      if !IsGuarded(role, call.func) {
        return Allowed;
      }
      if record.None? || record.value.limits.None? {
        return Allowed;
      }
      var limits := record.value.limits.value;
      var off := ProtectionOff(call.func);
      if off.Some? && Ceiling(limits, off.value).Some? {
        return ProtectionStaysOn(off.value);
      }
      var limit := ValueLimit(role.value, call.func);
      if limit.Some? && Exceeds(limits, limit.value, ExtractValue(call)) {
        return LimitExceeded(limit.value);
      }
      if Exceeds(limits, MaxVoltage, Keyword(call, OvpName)) {
        return LimitExceeded(MaxVoltage);
      }
      if Exceeds(limits, MaxCurrent, Keyword(call, OcpName)) {
        return LimitExceeded(MaxCurrent);
      }
      if RateLimited(call.func) {
        var exceeded := rates.CheckRate((name, call.func), now, length, maxCalls);
        if exceeded {
          return TooOften;
        }
      }
      verdict := Allowed;
    }
  }

  /** A call that is refused for what it asks leaves every counter as it was. */
  lemma RefusedIsNotCounted(nets: seq<Record>, windows: Windows, info: Info, call: Call, now: real, length: real, maxCalls: nat)
    requires var verdict := Checked(nets, windows, info, call, now, length, maxCalls).0;
      verdict != Allowed && verdict != TooOften
    ensures Checked(nets, windows, info, call, now, length, maxCalls).1 == windows
  {
  }
}
