/**
  What the interlock is for: the registers of the instruments behind it.

  A driver says which of its methods write which registers, from which of their
  parameters.  Whether every such write passes the interlock is a question about
  drivers, calls and saved nets, and it is answered here both ways.
*/
module Instruments {
  import opened Options
  import opened NetsCache
  import opened RateLimit
  import opened Safety

  // -------------------------------------------------------------------------
  // Drivers
  // -------------------------------------------------------------------------

  datatype Register =
    | VoltageLevel | CurrentLevel | OvpLevel | OcpLevel
    | OpenCircuitLevel | FullLevel | EmptyLevel
    | ResistanceLevel | PowerLevel

  /** What a register holds, where a ceiling may apply to it. */
  function KindOf(register: Register): Option<Kind> {
    match register
    case CurrentLevel => Some(MaxCurrent)
    case OcpLevel => Some(MaxCurrent)
    case ResistanceLevel => None
    case PowerLevel => None
    case _ => Some(MaxVoltage)
  }

  /** A parameter, and the registers that may be set to its argument. */
  datatype Param = Param(name: Name, writes: set<Register>)

  /** The parameters of a method in their order, and the trips that it turns off. */
  datatype Routine = Routine(params: seq<Param>, turnsOff: set<Kind>)

  type Drivers = imap<(string, Func), Routine>

  predicate HasRoutine(drivers: Drivers, call: Call) {
    (call.device, call.func) in drivers
  }

  function RoutineOf(drivers: Drivers, call: Call): Routine
    requires HasRoutine(drivers, call)
  {
    drivers[(call.device, call.func)]
  }

  /** Each argument has a parameter, and none has two. */
  predicate Binds(params: seq<Param>, call: Call) {
    && |call.args| <= |params|
    && forall name <- call.kwargs :: exists i :: |call.args| <= i < |params| && params[i].name == name
  }

  function Bound(params: seq<Param>, call: Call, i: nat): Value
    requires i < |params|
  {
    if i < |call.args| then call.args[i] else Keyword(call, params[i].name)
  }

  /** The number that a driver makes of an argument, if it does: a boolean is one too. */
  function AsNumber(value: Value): Option<real> {
    match value
    case Number(x) => Some(x)
    case Flag(on) => Some(if on then 1.0 else 0.0)
    case _ => None
  }

  datatype Effect = Write(register: Register, value: real) | SwitchOff(kind: Kind)

  /** What a call may do to an instrument. */
  predicate May(drivers: Drivers, call: Call, effect: Effect) {
    && HasRoutine(drivers, call)
    && var routine := RoutineOf(drivers, call);
       && Binds(routine.params, call)
       && match effect
          case SwitchOff(kind) => kind in routine.turnsOff
          case Write(register, value) =>
            exists i :: 0 <= i < |routine.params| && register in routine.params[i].writes
              && AsNumber(Bound(routine.params, call, i)) == Some(value)
  }

  /** What its registers are set to, and the trips that are off. */
  datatype Instrument = Instrument(registers: map<Register, real>, off: set<Kind>)

  function Applied(i: Instrument, effect: Effect): Instrument {
    match effect
    case Write(register, value) => i.(registers := i.registers[register := value])
    case SwitchOff(kind) => i.(off := i.off + {kind})
  }

  function AllApplied(i: Instrument, effects: seq<Effect>): Instrument {
    if effects == [] then i else Applied(AllApplied(i, effects[..|effects| - 1]), effects[|effects| - 1])
  }

  /** An effect that leaves the limits alone. */
  predicate EffectWithin(limits: Limits, effect: Effect) {
    match effect
    case SwitchOff(kind) => Ceiling(limits, kind).None?
    case Write(register, value) =>
      KindOf(register).Some? && Ceiling(limits, KindOf(register).value).Some? ==>
        Abs(value) <= Ceiling(limits, KindOf(register).value).value
  }

  /** Every limited register inside its ceiling, and no trip with a ceiling off. */
  ghost predicate Within(limits: Limits, i: Instrument) {
    && (forall register <- i.registers :: EffectWithin(limits, Write(register, i.registers[register])))
    && (forall kind <- i.off :: EffectWithin(limits, SwitchOff(kind)))
  }

  lemma {:induction false} EffectsKeepWithin(limits: Limits, i: Instrument, effects: seq<Effect>)
    requires Within(limits, i) && forall k :: 0 <= k < |effects| ==> EffectWithin(limits, effects[k])
    ensures Within(limits, AllApplied(i, effects))
  {
    if effects != [] {
      EffectsKeepWithin(limits, i, effects[..|effects| - 1]);
      hide EffectWithin;
    }
  }

  // -------------------------------------------------------------------------
  // Where the interlock looks
  // -------------------------------------------------------------------------

  /** A number in a call that is held against the ceiling of a kind. */
  predicate IsCompared(role: Role, call: Call, kind: Kind, x: real) {
    || (ValueLimit(role, call.func) == Some(kind) && ExtractValue(call) == Number(x))
    || (kind == MaxVoltage && Keyword(call, OvpName) == Number(x))
    || (kind == MaxCurrent && Keyword(call, OcpName) == Number(x))
  }

  lemma AllowedIff(role: Role, limits: Limits, call: Call)
    ensures ValueVerdict(role, limits, call) == Allowed <==>
              && (ProtectionOff(call.func).Some? ==> Ceiling(limits, ProtectionOff(call.func).value).None?)
              && (forall kind, x :: IsCompared(role, call, kind, x) && Ceiling(limits, kind).Some? ==>
                    Abs(x) <= Ceiling(limits, kind).value)
  {
    var off, limit := ProtectionOff(call.func), ValueLimit(role, call.func);
    if ValueVerdict(role, limits, call) != Allowed && !(off.Some? && Ceiling(limits, off.value).Some?) {
      if limit.Some? && Exceeds(limits, limit.value, ExtractValue(call)) {
        assert IsCompared(role, call, limit.value, ExtractValue(call).value);
      } else if Exceeds(limits, MaxVoltage, Keyword(call, OvpName)) {
        assert IsCompared(role, call, MaxVoltage, Keyword(call, OvpName).value);
      } else {
        assert IsCompared(role, call, MaxCurrent, Keyword(call, OcpName).value);
      }
    }
  }

  /**
    An effect that the interlock has an eye on: a trip that it will not have turned
    off, or a number no larger than one that is compared.
  */
  predicate IsCovered(role: Role, call: Call, effect: Effect) {
    match effect
    case SwitchOff(kind) => IsGuarded(Some(role), call.func) && ProtectionOff(call.func) == Some(kind)
    case Write(register, value) =>
      KindOf(register).Some? ==>
        && IsGuarded(Some(role), call.func)
        && (ProtectionOff(call.func) == KindOf(register) || ComparedUpTo(role, call, KindOf(register).value, value))
  }

  predicate ComparedUpTo(role: Role, call: Call, kind: Kind, value: real) {
    || (ValueLimit(role, call.func) == Some(kind) && AtLeast(ExtractValue(call), value))
    || (kind == MaxVoltage && AtLeast(Keyword(call, OvpName), value))
    || (kind == MaxCurrent && AtLeast(Keyword(call, OcpName), value))
  }

  predicate AtLeast(seen: Value, value: real) {
    seen.Number? && Abs(seen.value) >= Abs(value)
  }

  lemma ComparedUpToIff(role: Role, call: Call, kind: Kind, value: real)
    ensures ComparedUpTo(role, call, kind, value) <==> exists x :: IsCompared(role, call, kind, x) && Abs(x) >= Abs(value)
  {
    if ComparedUpTo(role, call, kind, value) {
      if ValueLimit(role, call.func) == Some(kind) && AtLeast(ExtractValue(call), value) {
        assert IsCompared(role, call, kind, ExtractValue(call).value);
      } else if kind == MaxVoltage {
        assert IsCompared(role, call, kind, Keyword(call, OvpName).value);
      } else {
        assert IsCompared(role, call, kind, Keyword(call, OcpName).value);
      }
    }
  }

  /** A call whose every possible effect is covered. */
  ghost predicate CallIsCovered(drivers: Drivers, role: Role, call: Call) {
    forall effect :: May(drivers, call, effect) ==> IsCovered(role, call, effect)
  }

  lemma CoveredStaysWithin(role: Role, limits: Limits, call: Call, effect: Effect)
    requires IsCovered(role, call, effect)
    requires IsGuarded(Some(role), call.func) ==> ValueVerdict(role, limits, call) == Allowed
    ensures EffectWithin(limits, effect)
  {
    AllowedIff(role, limits, call);
    if effect.Write? && KindOf(effect.register).Some? {
      ComparedUpToIff(role, call, KindOf(effect.register).value, effect.value);
    }
  }

  // -------------------------------------------------------------------------
  // Runs
  // -------------------------------------------------------------------------

  /** The channel that a request or a saved net names: a channel, or else a pin. */
  function OutputOf(channel: Option<string>, pin: Option<string>): Option<string> {
    if channel.Some? then channel else pin
  }

  /** A request may drive the instrument of a saved net: same address and channel, as far as they are stated. */
  predicate Reaches(record: Record, info: Info) {
    && (info.address == "" || info.address == record.address)
    && var asked, saved := OutputOf(info.channel, info.pin), OutputOf(record.channel, record.pin);
       asked.None? || saved.None? || asked == saved
  }

  /** What it is to ask for, or to be saved on, an output. */
  predicate IsOn(channel: Option<string>, pin: Option<string>, output: string) {
    channel == Some(output) || (channel == None && pin == Some(output))
  }

  /** A request keeps away from a saved net's instrument only by stating another address, or another output. */
  lemma ReachesIff(record: Record, info: Info)
    ensures Reaches(record, info) <==>
              && (info.address != "" ==> info.address == record.address)
              && forall asked, saved :: IsOn(info.channel, info.pin, asked) && IsOn(record.channel, record.pin, saved) ==> asked == saved
  {
    var asked, saved := OutputOf(info.channel, info.pin), OutputOf(record.channel, record.pin);
    assert asked.Some? ==> IsOn(info.channel, info.pin, asked.value);
    assert saved.Some? ==> IsOn(record.channel, record.pin, saved.value);
  }

  /** Which ceiling a register falls under. */
  lemma RegisterKinds(register: Register)
    ensures KindOf(register) == Some(MaxCurrent) <==> register == CurrentLevel || register == OcpLevel
    ensures KindOf(register) == None <==> register == ResistanceLevel || register == PowerLevel
  {
  }

  datatype State = State(instrument: Instrument, windows: Windows)

  /** A request, and what it came to: the effects of the call and of its retry, as far as each of them got. */
  datatype Request = Request(info: Info, call: Call, now: real, effects: seq<Effect>)

  ghost predicate CanHappen(drivers: Drivers, request: Request) {
    forall k :: 0 <= k < |request.effects| ==> May(drivers, request.call, request.effects[k])
  }

  /** One request to the box, as the instrument behind `record` sees it. */
  function Served(nets: seq<Record>, record: Record, s: State, request: Request, length: real, maxCalls: nat): State {
    var (verdict, windows) := Checked(nets, s.windows, request.info, request.call, request.now, length, maxCalls);
    State(if verdict == Allowed && Reaches(record, request.info) then AllApplied(s.instrument, request.effects) else s.instrument,
          windows)
  }

  function Exec(nets: seq<Record>, record: Record, s: State, requests: seq<Request>, length: real, maxCalls: nat): State {
    if requests == [] then s
    else
      var last := |requests| - 1;
      Served(nets, record, Exec(nets, record, s, requests[..last], length, maxCalls), requests[last], length, maxCalls)
  }

  /** A saved net that its name finds, with a role and with limits. */
  predicate IsSaved(nets: seq<Record>, record: Record) {
    && record.name.Some? && FindByName(nets, record.name.value) == Some(record)
    && record.role.Some? && record.limits.Some?
  }

  /** Two roles for which the interlock's tables are the same. */
  predicate SameTable(a: Role, b: Role) {
    a == b || (!a.OtherRole? && !b.OtherRole? && !a.Battery? && !b.Battery? && !a.Eload? && !b.Eload?)
  }

  lemma SameTableSame(a: Role, b: Role, func: Func)
    requires SameTable(a, b)
    ensures ValueLimit(a, func) == ValueLimit(b, func) && IsGuarded(Some(a), func) == IsGuarded(Some(b), func)
  {
  }

  /** The net that a request is taken for is held to limits no wider than those of the net it may drive. */
  predicate IsHeldTo(nets: seq<Record>, record: Record, info: Info, kind: Kind)
    requires record.role.Some? && record.limits.Some?
  {
    var name := ResolveNetName(nets, info);
    Ceiling(record.limits.value, kind).Some? && name.Some? ==>
      && var found := FindByName(nets, name.value);
         && found.Some? && found.value.limits.Some? && found.value.role.Some?
         && SameTable(record.role.value, found.value.role.value)
         && Ceiling(found.value.limits.value, kind).Some?
         && (Ceiling(found.value.limits.value, kind).value <= Ceiling(record.limits.value, kind).value
             || Ceiling(found.value.limits.value, kind).value < 0.0)
  }

  predicate IsHeld(nets: seq<Record>, record: Record, info: Info)
    requires record.role.Some? && record.limits.Some?
  {
    IsHeldTo(nets, record, info, MaxVoltage) && IsHeldTo(nets, record, info, MaxCurrent)
  }

  /** One effect of one request that was let through. */
  lemma AllowedStaysWithin(nets: seq<Record>, record: Record, drivers: Drivers, windows: Windows, request: Request,
                           effect: Effect, length: real, maxCalls: nat)
    requires IsSaved(nets, record) && CallIsCovered(drivers, record.role.value, request.call)
    requires Reaches(record, request.info) ==> IsHeld(nets, record, request.info)
    requires Checked(nets, windows, request.info, request.call, request.now, length, maxCalls).0 == Allowed
    requires Reaches(record, request.info) && May(drivers, request.call, effect)
    ensures EffectWithin(record.limits.value, effect)
  {
    var role, limits := record.role.value, record.limits.value;
    assert IsCovered(role, request.call, effect);
    var kind := match effect case SwitchOff(kind) => Some(kind) case Write(register, _) => KindOf(register);
    if kind.Some? && Ceiling(limits, kind.value).Some? {
      assert IsHeldTo(nets, record, request.info, kind.value);
      var name := ResolveNetName(nets, request.info);
      if name.None? {
        SavedHasLimits(nets, record);
        assert PossiblyGuarded(request.call.func);
      } else {
        var found := FindByName(nets, name.value).value;
        SameTableSame(role, found.role.value, request.call.func);
        HeldStaysWithin(role, limits, found.role.value, found.limits.value, request.call, effect, kind.value);
      }
    }
  }

  lemma SavedHasLimits(nets: seq<Record>, record: Record)
    requires IsSaved(nets, record)
    ensures AnyLimits(nets)
  {
  }

  lemma HeldStaysWithin(role: Role, limits: Limits, other: Role, held: Limits, call: Call, effect: Effect, kind: Kind)
    requires SameTable(role, other) && IsCovered(role, call, effect)
    requires ValueVerdict(other, held, call) == Allowed
    requires (effect.SwitchOff? && effect.kind == kind) || (effect.Write? && KindOf(effect.register) == Some(kind))
    requires Ceiling(held, kind).Some? && Ceiling(limits, kind).Some?
    requires Ceiling(held, kind).value <= Ceiling(limits, kind).value || Ceiling(held, kind).value < 0.0
    ensures EffectWithin(limits, effect)
  {
    SameTableSame(role, other, call.func);
    AllowedIff(other, held, call);
    if effect.Write? && ComparedUpTo(role, call, kind, effect.value) {
      ComparedUpToIff(role, call, kind, effect.value);
      var x :| IsCompared(role, call, kind, x) && Abs(x) >= Abs(effect.value);
      assert IsCompared(other, call, kind, x);
    }
  }

  /**
    Behind a saved net with a role and limits, an instrument that starts inside
    them stays inside them over any run, retries included, if whatever the calls
    can do is covered, and whatever may drive the instrument is held to limits no wider.
  */
  lemma {:induction false} StaysWithin(nets: seq<Record>, record: Record, drivers: Drivers, s: State, requests: seq<Request>,
                                       length: real, maxCalls: nat)
    requires IsSaved(nets, record) && Within(record.limits.value, s.instrument)
    requires forall k :: 0 <= k < |requests| ==>
      && CanHappen(drivers, requests[k]) && CallIsCovered(drivers, record.role.value, requests[k].call)
      && (Reaches(record, requests[k].info) ==> IsHeld(nets, record, requests[k].info))
    ensures Within(record.limits.value, Exec(nets, record, s, requests, length, maxCalls).instrument)
  {
    if requests != [] {
      var before, request := requests[..|requests| - 1], requests[|requests| - 1];
      StaysWithin(nets, record, drivers, s, before, length, maxCalls);
      var t := Exec(nets, record, s, before, length, maxCalls);
      if Checked(nets, t.windows, request.info, request.call, request.now, length, maxCalls).0 == Allowed
         && Reaches(record, request.info) {
        forall k | 0 <= k < |request.effects|
          ensures EffectWithin(record.limits.value, request.effects[k])
        {
          AllowedStaysWithin(nets, record, drivers, t.windows, request, request.effects[k], length, maxCalls);
        }
        EffectsKeepWithin(record.limits.value, t.instrument, request.effects);
      }
    }
  }

  // -------------------------------------------------------------------------
  // Covered calls are needed
  // -------------------------------------------------------------------------

  /** A run behind a saved net of that role, with limits of any kind, in which every request names that net. */
  ghost predicate IsOwnRun(nets: seq<Record>, record: Record, drivers: Drivers, role: Role, calls: iset<Call>,
                           s: State, requests: seq<Request>)
  {
    && IsSaved(nets, record) && record.role == Some(role) && Within(record.limits.value, s.instrument)
    && forall k :: 0 <= k < |requests| ==>
         && ResolveNetName(nets, requests[k].info) == record.name
         && CanHappen(drivers, requests[k]) && requests[k].call in calls
  }

  ghost predicate Stays(nets: seq<Record>, record: Record, s: State, requests: seq<Request>, length: real, maxCalls: nat) {
    record.limits.Some? && Within(record.limits.value, Exec(nets, record, s, requests, length, maxCalls).instrument)
  }

  ghost predicate AllOwnRunsStay(drivers: Drivers, role: Role, calls: iset<Call>) {
    forall nets, record, s, requests: seq<Request>, length, maxCalls ::
      IsOwnRun(nets, record, drivers, role, calls, s, requests) ==> Stays(nets, record, s, requests, length, maxCalls)
  }

  function LimitOn(kind: Kind, ceiling: real): Limits {
    match kind
    case MaxVoltage => Limits(Some(ceiling), None)
    case MaxCurrent => Limits(None, Some(ceiling))
  }

  function Larger(seen: Value, least: real): real {
    if seen.Number? && Abs(seen.value) > least then Abs(seen.value) else least
  }

  function Trip(call: Call, kind: Kind): Value {
    match kind
    case MaxVoltage => Keyword(call, OvpName)
    case MaxCurrent => Keyword(call, OcpName)
  }

  /** The least ceiling, from `least` up, that the interlock finds nothing above. */
  function LeastCeiling(role: Role, call: Call, kind: Kind, least: real): real {
    var trip := Larger(Trip(call, kind), least);
    if ValueLimit(role, call.func) == Some(kind) then Larger(ExtractValue(call), trip) else trip
  }

  lemma LeastCeilingAllows(role: Role, call: Call, kind: Kind, least: real)
    requires ProtectionOff(call.func) != Some(kind)
    ensures ValueVerdict(role, LimitOn(kind, LeastCeiling(role, call, kind, least)), call) == Allowed
  {
    AllowedIff(role, LimitOn(kind, LeastCeiling(role, call, kind, least)), call);
  }

  /** An effect that is not covered takes an instrument out of some limits, under which its call is let through. */
  lemma UncoveredBreaks(role: Role, call: Call, effect: Effect) returns (limits: Limits)
    requires !IsCovered(role, call, effect)
    ensures IsGuarded(Some(role), call.func) ==> ValueVerdict(role, limits, call) == Allowed
    ensures !EffectWithin(limits, effect)
  {
    match effect
    case SwitchOff(kind) =>
      limits := LimitOn(kind, LeastCeiling(role, call, kind, 0.0));
      if IsGuarded(Some(role), call.func) {
        LeastCeilingAllows(role, call, kind, 0.0);
      }
    case Write(register, value) =>
      var kind := KindOf(register).value;
      if IsGuarded(Some(role), call.func) {
        limits := LimitOn(kind, LeastCeiling(role, call, kind, Abs(value) - 1.0));
        LeastCeilingAllows(role, call, kind, Abs(value) - 1.0);
      } else {
        limits := LimitOn(kind, Abs(value) - 1.0);
      }
  }

  /** One request, let through, and one effect of it. */
  lemma BrokenBy(nets: seq<Record>, record: Record, request: Request, effect: Effect)
    requires IsSaved(nets, record) && request.effects == [effect] && Reaches(record, request.info)
    requires Checked(nets, map[], request.info, request.call, request.now, 1.0, 1).0 == Allowed
    requires !EffectWithin(record.limits.value, effect)
    ensures var s := State(Instrument(map[], {}), map[]);
            && Within(record.limits.value, s.instrument)
            && !Within(record.limits.value, Exec(nets, record, s, [request], 1.0, 1).instrument)
  {
    var i := Instrument(map[], {});
    var s := State(i, map[]);
    assert [request][..0] == [] && [effect][..0] == [];
    assert Exec(nets, record, s, [], 1.0, 1) == s && AllApplied(i, []) == i;
    assert Exec(nets, record, s, [request], 1.0, 1).instrument == Applied(i, effect);
    if effect.Write? {
      assert effect.register in Applied(i, effect).registers;
    } else {
      assert effect.kind in Applied(i, effect).off;
    }
  }

  lemma OneNetIsSaved(record: Record)
    requires record.name.Some? && record.name.value != "" && record.role.Some? && record.limits.Some?
    ensures IsSaved([record], record)
  {
    assert [record][0] == record;
  }

  /**
    Exactly when every effect of every call is covered does every run of such
    calls stay within its limits, whatever these are.
  */
  lemma CoverageIsNeeded(drivers: Drivers, role: Role, calls: iset<Call>)
    ensures (forall call <- calls :: CallIsCovered(drivers, role, call)) <==> AllOwnRunsStay(drivers, role, calls)
  {
    if forall call <- calls :: CallIsCovered(drivers, role, call) {
      forall nets, record, s, requests: seq<Request>, length, maxCalls
        | IsOwnRun(nets, record, drivers, role, calls, s, requests)
        ensures Stays(nets, record, s, requests, length, maxCalls)
      {
        OwnRunStays(nets, record, drivers, role, calls, s, requests, length, maxCalls);
      }
    } else {
      var call :| call in calls && !CallIsCovered(drivers, role, call);
      UncoveredCallBreaks(drivers, role, calls, call);
    }
  }

  lemma OwnRunStays(nets: seq<Record>, record: Record, drivers: Drivers, role: Role, calls: iset<Call>,
                    s: State, requests: seq<Request>, length: real, maxCalls: nat)
    requires IsOwnRun(nets, record, drivers, role, calls, s, requests)
    requires forall call <- calls :: CallIsCovered(drivers, role, call)
    ensures Stays(nets, record, s, requests, length, maxCalls)
  {
    forall k | 0 <= k < |requests|
      ensures CallIsCovered(drivers, role, requests[k].call) && IsHeld(nets, record, requests[k].info)
    {
      assert ResolveNetName(nets, requests[k].info) == record.name;
    }
    StaysWithin(nets, record, drivers, s, requests, length, maxCalls);
  }

  lemma UncoveredCallBreaks(drivers: Drivers, role: Role, calls: iset<Call>, call: Call)
    requires call in calls && !CallIsCovered(drivers, role, call)
    ensures !AllOwnRunsStay(drivers, role, calls)
  {
    var effect :| May(drivers, call, effect) && !IsCovered(role, call, effect);
    var limits := UncoveredBreaks(role, call, effect);
    var record := Record(Some("n"), Some(role), "a", None, None, Some(limits));
    var request := Request(Info("n", "a", None, None), call, 0.0, [effect]);
    var s := State(Instrument(map[], {}), map[]);
    hide May, IsCovered, EffectWithin, ValueVerdict;
    OneNetIsSaved(record);
    BrokenBy([record], record, request, effect);
    assert IsOwnRun([record], record, drivers, role, calls, s, [request]);
    assert !Stays([record], record, s, [request], 1.0, 1);
  }

  // -------------------------------------------------------------------------
  // Limits no wider are needed
  // -------------------------------------------------------------------------

  ghost predicate IsCoveredRun(record: Record, drivers: Drivers, infos: iset<Info>, s: State, requests: seq<Request>)
    requires record.role.Some? && record.limits.Some?
  {
    && Within(record.limits.value, s.instrument)
    && forall k :: 0 <= k < |requests| ==>
         && CanHappen(drivers, requests[k]) && CallIsCovered(drivers, record.role.value, requests[k].call)
         && requests[k].info in infos
  }

  ghost predicate AllCoveredRunsStay(nets: seq<Record>, record: Record, infos: iset<Info>)
    requires record.role.Some? && record.limits.Some?
  {
    forall drivers, s, requests: seq<Request>, length, maxCalls ::
      IsCoveredRun(record, drivers, infos, s, requests) ==> Stays(nets, record, s, requests, length, maxCalls)
  }

  /** A setter that only roles with the same table have, and what it sets. */
  function OwnSetter(role: Role, kind: Kind): (Func, Register) {
    match kind
    case MaxVoltage =>
      (if role.Battery? then Voc else if role.Eload? then SetVoltage else Voltage,
       if role.Battery? then OpenCircuitLevel else VoltageLevel)
    case MaxCurrent =>
      (if role.Battery? then CurrentLimit else if role.Eload? then SetCurrent else Current, CurrentLevel)
  }

  /** A value that the net the request is taken for lets through, and the net that it drives does not. */
  lemma UnheldValue(nets: seq<Record>, record: Record, info: Info, kind: Kind) returns (x: real)
    requires IsSaved(nets, record) && !record.role.value.OtherRole? && !IsHeldTo(nets, record, info, kind)
    ensures var (func, register) := OwnSetter(record.role.value, kind);
            var call := Call("d", func, [Number(x)], map[]);
            && Checked(nets, map[], info, call, 0.0, 1.0, 1).0 == Allowed
            && Abs(x) > Ceiling(record.limits.value, kind).value
  {
    var found := FindByName(nets, ResolveNetName(nets, info).value);
    var ceiling := Ceiling(record.limits.value, kind).value;
    x := if found.Some? && found.value.limits.Some? && Ceiling(found.value.limits.value, kind).Some?
            && found.value.role.Some? && SameTable(record.role.value, found.value.role.value)
         then Ceiling(found.value.limits.value, kind).value
         else Abs(ceiling) + 1.0;
  }

  lemma UnheldRequestBreaks(nets: seq<Record>, record: Record, infos: iset<Info>, info: Info, kind: Kind)
    requires IsSaved(nets, record) && !record.role.value.OtherRole?
    requires info in infos && Reaches(record, info) && !IsHeldTo(nets, record, info, kind)
    ensures !AllCoveredRunsStay(nets, record, infos)
  {
    var x := UnheldValue(nets, record, info, kind);
    var role := record.role.value;
    var (func, register) := OwnSetter(role, kind);
    var call := Call("d", func, [Number(x)], map[]);
    var effect := Write(register, x);
    var drivers: Drivers := imap[("d", func) := Routine([Param(ValueName, {register})], {})];
    assert May(drivers, call, effect) by {
      assert RoutineOf(drivers, call).params[0] == Param(ValueName, {register});
    }
    forall other | May(drivers, call, other)
      ensures IsCovered(role, call, other)
    {
    }
    var request := Request(info, call, 0.0, [effect]);
    var s := State(Instrument(map[], {}), map[]);
    assert !EffectWithin(record.limits.value, effect);
    hide May, IsCovered, EffectWithin;
    BrokenBy(nets, record, request, effect);
    assert IsCoveredRun(record, drivers, infos, s, [request]);
    assert !Stays(nets, record, s, [request], 1.0, 1);
  }

  /**
    Exactly when each request that may drive an instrument is taken for a net with
    limits no wider does every run of covered calls stay within its limits.
  */
  lemma HoldingIsNeeded(nets: seq<Record>, record: Record, infos: iset<Info>)
    requires IsSaved(nets, record) && !record.role.value.OtherRole?
    ensures (forall info <- infos :: Reaches(record, info) ==> IsHeld(nets, record, info))
       <==> AllCoveredRunsStay(nets, record, infos)
  {
    if forall info <- infos :: Reaches(record, info) ==> IsHeld(nets, record, info) {
      forall drivers, s, requests: seq<Request>, length, maxCalls | IsCoveredRun(record, drivers, infos, s, requests)
        ensures Stays(nets, record, s, requests, length, maxCalls)
      {
        StaysWithin(nets, record, drivers, s, requests, length, maxCalls);
      }
    } else {
      var info :| info in infos && Reaches(record, info) && !IsHeld(nets, record, info);
      UnheldRequestBreaks(nets, record, infos, info,
                          if !IsHeldTo(nets, record, info, MaxVoltage) then MaxVoltage else MaxCurrent);
    }
  }

  // -------------------------------------------------------------------------
  // By the tables alone
  // -------------------------------------------------------------------------

  /** How a method is called: with how many positional arguments, and which keyword arguments. */
  datatype Shape = Shape(device: string, func: Func, count: nat, names: set<Name>)

  /** All the calls of a shape, whatever numbers they give. */
  predicate HasShape(call: Call, shape: Shape) {
    && call.device == shape.device && call.func == shape.func && |call.args| == shape.count && call.kwargs.Keys == shape.names
    && (forall i :: 0 <= i < |call.args| ==> call.args[i].Null? || call.args[i].Number?)
    && (forall name <- call.kwargs :: call.kwargs[name].Null? || call.kwargs[name].Number?)
  }

  predicate Fits(params: seq<Param>, shape: Shape) {
    && shape.count <= |params|
    && forall name <- shape.names :: exists i :: shape.count <= i < |params| && params[i].name == name
  }

  /** Parameter `i` takes its argument where the interlock looks for a value of this kind. */
  predicate IsLookedAt(role: Role, shape: Shape, params: seq<Param>, i: nat, kind: Kind)
    requires i < |params|
  {
    && IsGuarded(Some(role), shape.func)
    && (|| ProtectionOff(shape.func) == Some(kind)
        || (ValueLimit(role, shape.func) == Some(kind)
            && if ValueName in shape.names then i >= shape.count && params[i].name == ValueName else i == 0 < shape.count)
        || (i >= shape.count && params[i].name == if kind == MaxVoltage then OvpName else OcpName))
  }

  predicate IsGiven(shape: Shape, params: seq<Param>, i: nat)
    requires i < |params|
  {
    i < shape.count || params[i].name in shape.names
  }

  predicate ParamIsSeen(role: Role, shape: Shape, params: seq<Param>, i: nat)
    requires i < |params|
  {
    IsGiven(shape, params, i) ==>
      forall register <- params[i].writes :: KindOf(register).Some? ==> IsLookedAt(role, shape, params, i, KindOf(register).value)
  }

  /** Every parameter given that writes a limited register is looked at, and so is every trip turned off. */
  predicate IsSeen(role: Role, shape: Shape, routine: Routine) {
    && (forall i :: 0 <= i < |routine.params| ==> ParamIsSeen(role, shape, routine.params, i))
    && (forall kind <- routine.turnsOff :: IsGuarded(Some(role), shape.func) && ProtectionOff(shape.func) == Some(kind))
  }

  predicate ShapeIsSeen(drivers: Drivers, role: Role, shape: Shape) {
    (shape.device, shape.func) in drivers ==>
      var routine := drivers[(shape.device, shape.func)];
      Fits(routine.params, shape) ==> IsSeen(role, shape, routine)
  }

  lemma LookedAtIsCompared(role: Role, shape: Shape, params: seq<Param>, call: Call, i: nat, register: Register, x: real)
    requires HasShape(call, shape) && i < |params| && KindOf(register).Some?
    requires IsLookedAt(role, shape, params, i, KindOf(register).value) && Bound(params, call, i) == Number(x)
    ensures IsCovered(role, call, Write(register, x))
  {
  }

  lemma SeenIsCovered(drivers: Drivers, role: Role, shape: Shape, call: Call)
    requires ShapeIsSeen(drivers, role, shape) && HasShape(call, shape)
    ensures CallIsCovered(drivers, role, call)
  {
    forall effect | May(drivers, call, effect)
      ensures IsCovered(role, call, effect)
    {
      var routine := RoutineOf(drivers, call);
      assert Fits(routine.params, shape);
      if effect.Write? && KindOf(effect.register).Some? {
        var i :| 0 <= i < |routine.params| && effect.register in routine.params[i].writes
                 && AsNumber(Bound(routine.params, call, i)) == Some(effect.value);
        assert Bound(routine.params, call, i) == Number(effect.value);
        assert ParamIsSeen(role, shape, routine.params, i);
        LookedAtIsCompared(role, shape, routine.params, call, i, effect.register, effect.value);
      }
    }
  }

  /** The call of a shape that gives one to parameter `i`, and nought to the others. */
  function Probe(shape: Shape, params: seq<Param>, i: nat): Call
    requires i < |params|
  {
    Call(shape.device, shape.func, seq(shape.count, j => if j == i then Number(1.0) else Number(0.0)),
         map name | name in shape.names :: if i >= shape.count && name == params[i].name then Number(1.0) else Number(0.0))
  }

  lemma ProbeBinds(shape: Shape, params: seq<Param>, i: nat)
    requires Fits(params, shape) && i < |params| && IsGiven(shape, params, i)
    ensures var call := Probe(shape, params, i);
            HasShape(call, shape) && Binds(params, call) && Bound(params, call, i) == Number(1.0)
  {
    var call := Probe(shape, params, i);
    assert call.kwargs.Keys == shape.names;
  }

  /** The interlock sees the one only where parameter `i` is looked at. */
  lemma ProbeIsUncompared(role: Role, shape: Shape, params: seq<Param>, i: nat, kind: Kind)
    requires i < |params| && IsGuarded(Some(role), shape.func) && !IsLookedAt(role, shape, params, i, kind)
    ensures !ComparedUpTo(role, Probe(shape, params, i), kind, 1.0)
  {
    var call := Probe(shape, params, i);
    forall name
      ensures Keyword(call, name) == Number(1.0) ==> i >= shape.count && params[i].name == name
      ensures Keyword(call, name) == (if name !in shape.names then Null
                                      else if i >= shape.count && params[i].name == name then Number(1.0) else Number(0.0))
    {
    }
    hide IsGuarded, ValueLimit, ProtectionOff, Probe, Keyword;
    assert shape.count > 0 ==> call.args[0] == if i == 0 then Number(1.0) else Number(0.0) by {
      FirstOfProbe(shape, params, i);
    }
    assert |call.args| == shape.count by {
      FirstOfProbe(shape, params, i);
    }
  }

  lemma FirstOfProbe(shape: Shape, params: seq<Param>, i: nat)
    requires i < |params|
    ensures |Probe(shape, params, i).args| == shape.count
    ensures shape.count > 0 ==> Probe(shape, params, i).args[0] == if i == 0 then Number(1.0) else Number(0.0)
  {
  }

  lemma ProbeFindsGap(drivers: Drivers, role: Role, shape: Shape, i: nat, register: Register)
    requires (shape.device, shape.func) in drivers && KindOf(register).Some?
    requires var params := drivers[(shape.device, shape.func)].params;
      && Fits(params, shape) && i < |params| && IsGiven(shape, params, i)
      && register in params[i].writes && !IsLookedAt(role, shape, params, i, KindOf(register).value)
    ensures var call := Probe(shape, drivers[(shape.device, shape.func)].params, i);
            HasShape(call, shape) && !CallIsCovered(drivers, role, call)
  {
    var params := drivers[(shape.device, shape.func)].params;
    var call := Probe(shape, params, i);
    ProbeBinds(shape, params, i);
    hide Binds, Bound, HasShape, Fits, IsGiven, ComparedUpTo;
    assert May(drivers, call, Write(register, 1.0));
    if IsGuarded(Some(role), shape.func) {
      ProbeIsUncompared(role, shape, params, i, KindOf(register).value);
    }
    assert !IsCovered(role, call, Write(register, 1.0));
  }

  /** The tables tell: a shape is seen exactly if every call of it is covered. */
  lemma SeenIff(drivers: Drivers, role: Role, shape: Shape)
    ensures ShapeIsSeen(drivers, role, shape) <==> forall call :: HasShape(call, shape) ==> CallIsCovered(drivers, role, call)
  {
    if ShapeIsSeen(drivers, role, shape) {
      forall call | HasShape(call, shape)
        ensures CallIsCovered(drivers, role, call)
      {
        SeenIsCovered(drivers, role, shape, call);
      }
    } else {
      UnseenIsUncovered(drivers, role, shape);
    }
  }

  lemma UnseenIsUncovered(drivers: Drivers, role: Role, shape: Shape)
    requires !ShapeIsSeen(drivers, role, shape)
    ensures exists call :: HasShape(call, shape) && !CallIsCovered(drivers, role, call)
  {
    var routine := drivers[(shape.device, shape.func)];
    var params := routine.params;
    if forall kind <- routine.turnsOff :: IsGuarded(Some(role), shape.func) && ProtectionOff(shape.func) == Some(kind) {
      var i :| 0 <= i < |params| && !ParamIsSeen(role, shape, params, i);
      var register :| register in params[i].writes && KindOf(register).Some?
                      && !IsLookedAt(role, shape, params, i, KindOf(register).value);
      ProbeFindsGap(drivers, role, shape, i, register);
    } else {
      var kind :| kind in routine.turnsOff && !(IsGuarded(Some(role), shape.func) && ProtectionOff(shape.func) == Some(kind));
      var call := Call(shape.device, shape.func, seq(shape.count, _ => Null), map name | name in shape.names :: Null);
      assert call.kwargs.Keys == shape.names;
      assert Binds(params, call);
      assert May(drivers, call, SwitchOff(kind));
      assert HasShape(call, shape) && !IsCovered(role, call, SwitchOff(kind));
    }
  }

  ghost predicate HasOneShape(call: Call, shapes: iset<Shape>) {
    exists shape :: shape in shapes && HasShape(call, shape)
  }

  /**
    Exactly when every method that writes a limited register is in the interlock's
    tables, and takes its argument where the interlock looks, does every run of
    calls of these shapes stay within its limits.
  */
  lemma TablesDecide(drivers: Drivers, role: Role, shapes: iset<Shape>)
    ensures (forall shape <- shapes :: ShapeIsSeen(drivers, role, shape))
       <==> AllOwnRunsStay(drivers, role, iset call | HasOneShape(call, shapes))
  {
    var calls := iset call | HasOneShape(call, shapes);
    CoverageIsNeeded(drivers, role, calls);
    hide ShapeIsSeen, HasShape, CallIsCovered, AllOwnRunsStay;
    forall shape {
      SeenIff(drivers, role, shape);
    }
    if forall shape <- shapes :: ShapeIsSeen(drivers, role, shape) {
      forall call <- calls
        ensures CallIsCovered(drivers, role, call)
      {
        var shape :| shape in shapes && HasShape(call, shape);
      }
    } else {
      var shape :| shape in shapes && !ShapeIsSeen(drivers, role, shape);
      var call :| HasShape(call, shape) && !CallIsCovered(drivers, role, call);
      assert call in calls;
    }
  }
}
