/**
  Three drivers as the box has them, which of their methods the interlock sees,
  and calls that it lets through past a ceiling.
*/
module DriverTables {
  import opened Options
  import opened NetsCache
  import opened RateLimit
  import opened Safety
  import opened Instruments

  const DP700 := "rigol_dp700"
  const DL3021 := "rigol_dl3021"
  const BATTERY := "keithley_battery"

  /** A method with one parameter called `value`. */
  function Setter(register: Register): Routine {
    Routine([Param(ValueName, {register})], {})
  }

  /** A setter with a channel argument after the value, which it ignores. */
  function RawSetter(register: Register, last: string): Routine {
    Routine([Param(ValueName, {register}), Param(OwnName(last), {})], {})
  }

  /** A setpoint, and the two trips that can be given along with it. */
  function SetterWithTrips(register: Register): Routine {
    Routine([Param(ValueName, {register}), Param(OcpName, {OcpLevel}), Param(OvpName, {OvpLevel})], {})
  }

  function Named(name: string, register: Register): Routine {
    Routine([Param(OwnName(name), {register})], {})
  }

  function Switch(kind: Kind): Routine {
    Routine([Param(OwnName("channel"), {})], {kind})
  }

  /** The methods of a single-channel supply that write a limited register. */
  function SupplyMethod(func: Func): Option<Routine> {
    match func
    case Voltage => Some(SetterWithTrips(VoltageLevel))
    case Current => Some(SetterWithTrips(CurrentLevel))
    case Ovp => Some(Setter(OvpLevel))
    case Ocp => Some(Setter(OcpLevel))
    case DisableOvervoltageProtection => Some(Switch(MaxVoltage))
    case DisableOvercurrentProtection => Some(Switch(MaxCurrent))
    case Unlisted(SetChannelVoltage) => Some(RawSetter(VoltageLevel, "source"))
    case Unlisted(SetChannelCurrent) => Some(RawSetter(CurrentLevel, "source"))
    case Unlisted(SetOvpValue) => Some(RawSetter(OvpLevel, "channel"))
    case Unlisted(SetOcpValue) => Some(RawSetter(OcpLevel, "channel"))
    case _ => None
  }

  /** Those of an electronic load.  `apply_setpoint` sets what its first argument says. */
  function EloadMethod(func: Func): Option<Routine> {
    match func
    case Current => Some(Setter(CurrentLevel))
    case Voltage => Some(Setter(VoltageLevel))
    case SetCurrent => Some(Named("current", CurrentLevel))
    case SetVoltage => Some(Named("voltage", VoltageLevel))
    case Unlisted(ApplySetpoint) =>
      Some(Routine([Param(OwnName("kind"), {}),
                    Param(ValueName, {CurrentLevel, VoltageLevel, ResistanceLevel, PowerLevel})], {}))
    case _ => None
  }

  /** Those of a battery simulator, each of which has a second name. */
  function BatteryMethod(func: Func): Option<Routine> {
    match func
    case Voc => Some(Setter(OpenCircuitLevel))
    case VoltageFull => Some(Setter(FullLevel))
    case VoltageEmpty => Some(Setter(EmptyLevel))
    case CurrentLimit => Some(Setter(CurrentLevel))
    case Ovp => Some(Setter(OvpLevel))
    case Ocp => Some(Setter(OcpLevel))
    case Unlisted(SetVoc) => Some(Setter(OpenCircuitLevel))
    case Unlisted(SetVoltFull) => Some(Setter(FullLevel))
    case Unlisted(SetVoltEmpty) => Some(Setter(EmptyLevel))
    case Unlisted(SetCurrentLimit) => Some(Setter(CurrentLevel))
    case Unlisted(SetOvp) => Some(Setter(OvpLevel))
    case Unlisted(SetOcp) => Some(Setter(OcpLevel))
    case _ => None
  }

  ghost function SupplyDriver(): Drivers {
    imap func | SupplyMethod(func).Some? :: (DP700, func) := SupplyMethod(func).value
  }

  ghost function EloadDriver(): Drivers {
    imap func | EloadMethod(func).Some? :: (DL3021, func) := EloadMethod(func).value
  }

  ghost function BatteryDriver(): Drivers {
    imap func | BatteryMethod(func).Some? :: (BATTERY, func) := BatteryMethod(func).value
  }

  // -------------------------------------------------------------------------
  // The tables by register
  // -------------------------------------------------------------------------

  /** Some parameter of the method goes to the register. */
  predicate Sets(found: Option<Routine>, register: Register) {
    found.Some? && exists i :: 0 <= i < |found.value.params| && register in found.value.params[i].writes
  }

  lemma SetsOne(name: Name, register: Register, other: Register)
    ensures Sets(Some(Routine([Param(name, {register})], {})), other) <==> other == register
  {
    assert [Param(name, {register})][0] == Param(name, {register});
  }

  lemma SetsTwo(first: Param, second: Param, other: Register)
    ensures Sets(Some(Routine([first, second], {})), other) <==> other in first.writes || other in second.writes
  {
    assert [first, second][0] == first && [first, second][1] == second;
  }

  lemma SetsThree(first: Param, second: Param, third: Param, other: Register)
    ensures Sets(Some(Routine([first, second, third], {})), other) <==>
              other in first.writes || other in second.writes || other in third.writes
  {
    assert [first, second, third][0] == first && [first, second, third][1] == second && [first, second, third][2] == third;
  }

  /** What sets each register of a supply, and what turns its trips off. */
  lemma SupplyRegisters(func: Func, register: Register, kind: Kind)
    ensures Sets(SupplyMethod(func), register) <==>
              match register
              case VoltageLevel => func == Voltage || func == Unlisted(SetChannelVoltage)
              case CurrentLevel => func == Current || func == Unlisted(SetChannelCurrent)
              case OvpLevel => func == Ovp || func == Unlisted(SetOvpValue) || func == Voltage || func == Current
              case OcpLevel => func == Ocp || func == Unlisted(SetOcpValue) || func == Voltage || func == Current
              case _ => false
    ensures SupplyMethod(func).Some? && kind in SupplyMethod(func).value.turnsOff <==>
              || (func == DisableOvervoltageProtection && kind == MaxVoltage)
              || (func == DisableOvercurrentProtection && kind == MaxCurrent)
  {
    var level := if func.Voltage? then VoltageLevel else CurrentLevel;
    SetsThree(Param(ValueName, {level}), Param(OcpName, {OcpLevel}), Param(OvpName, {OvpLevel}), register);
    match func
    case Ovp => SetsOne(ValueName, OvpLevel, register);
    case Ocp => SetsOne(ValueName, OcpLevel, register);
    case Unlisted(SetChannelVoltage) => SetsTwo(Param(ValueName, {VoltageLevel}), Param(OwnName("source"), {}), register);
    case Unlisted(SetChannelCurrent) => SetsTwo(Param(ValueName, {CurrentLevel}), Param(OwnName("source"), {}), register);
    case Unlisted(SetOvpValue) => SetsTwo(Param(ValueName, {OvpLevel}), Param(OwnName("channel"), {}), register);
    case Unlisted(SetOcpValue) => SetsTwo(Param(ValueName, {OcpLevel}), Param(OwnName("channel"), {}), register);
    case _ =>
  }

  /** What sets each register of an electronic load. */
  lemma EloadRegisters(func: Func, register: Register)
    ensures Sets(EloadMethod(func), register) <==>
              match register
              case VoltageLevel => func == Voltage || func == SetVoltage || func == Unlisted(ApplySetpoint)
              case CurrentLevel => func == Current || func == SetCurrent || func == Unlisted(ApplySetpoint)
              case ResistanceLevel => func == Unlisted(ApplySetpoint)
              case PowerLevel => func == Unlisted(ApplySetpoint)
              case _ => false
  {
    match func
    case Current => SetsOne(ValueName, CurrentLevel, register);
    case Voltage => SetsOne(ValueName, VoltageLevel, register);
    case SetCurrent => SetsOne(OwnName("current"), CurrentLevel, register);
    case SetVoltage => SetsOne(OwnName("voltage"), VoltageLevel, register);
    case Unlisted(ApplySetpoint) =>
      SetsTwo(Param(OwnName("kind"), {}), Param(ValueName, {CurrentLevel, VoltageLevel, ResistanceLevel, PowerLevel}), register);
    case _ =>
  }

  /** What sets each register of a battery simulator. */
  lemma BatteryRegisters(func: Func, register: Register)
    ensures Sets(BatteryMethod(func), register) <==>
              match register
              case OpenCircuitLevel => func == Voc || func == Unlisted(SetVoc)
              case FullLevel => func == VoltageFull || func == Unlisted(SetVoltFull)
              case EmptyLevel => func == VoltageEmpty || func == Unlisted(SetVoltEmpty)
              case CurrentLevel => func == CurrentLimit || func == Unlisted(SetCurrentLimit)
              case OvpLevel => func == Ovp || func == Unlisted(SetOvp)
              case OcpLevel => func == Ocp || func == Unlisted(SetOcp)
              case _ => false
  {
    match func
    case Voc => SetsOne(ValueName, OpenCircuitLevel, register);
    case VoltageFull => SetsOne(ValueName, FullLevel, register);
    case VoltageEmpty => SetsOne(ValueName, EmptyLevel, register);
    case CurrentLimit => SetsOne(ValueName, CurrentLevel, register);
    case Ovp => SetsOne(ValueName, OvpLevel, register);
    case Ocp => SetsOne(ValueName, OcpLevel, register);
    case Unlisted(SetVoc) => SetsOne(ValueName, OpenCircuitLevel, register);
    case Unlisted(SetVoltFull) => SetsOne(ValueName, FullLevel, register);
    case Unlisted(SetVoltEmpty) => SetsOne(ValueName, EmptyLevel, register);
    case Unlisted(SetCurrentLimit) => SetsOne(ValueName, CurrentLevel, register);
    case Unlisted(SetOvp) => SetsOne(ValueName, OvpLevel, register);
    case Unlisted(SetOcp) => SetsOne(ValueName, OcpLevel, register);
    case _ =>
  }

  predicate GivesValue(shape: Shape) {
    shape.count > 0 || ValueName in shape.names
  }

  // -------------------------------------------------------------------------
  // Which calls are seen
  // -------------------------------------------------------------------------

  lemma SetterIsSeen(role: Role, shape: Shape, register: Register)
    requires Fits(Setter(register).params, shape) && KindOf(register).Some? && ProtectionOff(shape.func).None?
    ensures IsSeen(role, shape, Setter(register)) <==>
              (GivesValue(shape) ==> IsGuarded(Some(role), shape.func) && ValueLimit(role, shape.func) == KindOf(register))
  {
    var params := Setter(register).params;
    assert params[0] == Param(ValueName, {register});
    assert GivesValue(shape) <==> IsGiven(shape, params, 0);
    assert register in params[0].writes;
    assert ParamIsSeen(role, shape, params, 0) <==>
             (GivesValue(shape) ==> IsGuarded(Some(role), shape.func) && ValueLimit(role, shape.func) == KindOf(register));
  }

  lemma RawSetterIsUnseen(role: Role, shape: Shape, register: Register, last: string)
    requires Fits(RawSetter(register, last).params, shape) && KindOf(register).Some? && shape.func.Unlisted?
    ensures IsSeen(role, shape, RawSetter(register, last)) <==> !GivesValue(shape)
  {
    var params := RawSetter(register, last).params;
    assert params[0] == Param(ValueName, {register}) && params[1] == Param(OwnName(last), {});
    assert GivesValue(shape) <==> IsGiven(shape, params, 0);
    assert register in params[0].writes;
    assert ParamIsSeen(role, shape, params, 1) && (ParamIsSeen(role, shape, params, 0) <==> !GivesValue(shape));
  }

  lemma TripsAreSeenByName(role: Role, shape: Shape, register: Register)
    requires Fits(SetterWithTrips(register).params, shape) && KindOf(register).Some?
    requires IsGuarded(Some(role), shape.func) && ProtectionOff(shape.func).None?
    requires ValueLimit(role, shape.func) == KindOf(register)
    ensures IsSeen(role, shape, SetterWithTrips(register)) <==> shape.count <= 1
  {
    var params := SetterWithTrips(register).params;
    assert params[0] == Param(ValueName, {register});
    assert params[1] == Param(OcpName, {OcpLevel}) && params[2] == Param(OvpName, {OvpLevel});
    assert shape.count == 1 ==> ValueName !in shape.names;
    if shape.count > 1 {
      assert OcpLevel in params[1].writes;
      assert !ParamIsSeen(role, shape, params, 1);
    } else {
      assert ParamIsSeen(role, shape, params, 0) && ParamIsSeen(role, shape, params, 1) && ParamIsSeen(role, shape, params, 2);
    }
  }

  lemma SwitchIsSeen(role: Role, shape: Shape, kind: Kind)
    requires role != OtherRole("") && ProtectionOff(shape.func) == Some(kind)
    ensures IsSeen(role, shape, Switch(kind))
  {
    assert Switch(kind).params[0] == Param(OwnName("channel"), {});
  }

  /** Of a supply: not the raw setters, and not the trips by position. */
  lemma SupplyShapes(shape: Shape)
    requires shape.device == DP700 && SupplyMethod(shape.func).Some? && Fits(SupplyMethod(shape.func).value.params, shape)
    ensures ShapeIsSeen(SupplyDriver(), PowerSupply, shape) <==>
              && (shape.func.Unlisted? ==> !GivesValue(shape))
              && (shape.func.Voltage? || shape.func.Current? ==> shape.count <= 1)
  {
    assert SupplyDriver()[(DP700, shape.func)] == SupplyMethod(shape.func).value;
    hide IsSeen, SupplyDriver, Fits, Setter, RawSetter, SetterWithTrips, Switch;
    match shape.func
    case Voltage => TripsAreSeenByName(PowerSupply, shape, VoltageLevel);
    case Current => TripsAreSeenByName(PowerSupply, shape, CurrentLevel);
    case Ovp => SetterIsSeen(PowerSupply, shape, OvpLevel);
    case Ocp => SetterIsSeen(PowerSupply, shape, OcpLevel);
    case DisableOvervoltageProtection => SwitchIsSeen(PowerSupply, shape, MaxVoltage);
    case DisableOvercurrentProtection => SwitchIsSeen(PowerSupply, shape, MaxCurrent);
    case Unlisted(SetChannelVoltage) => RawSetterIsUnseen(PowerSupply, shape, VoltageLevel, "source");
    case Unlisted(SetChannelCurrent) => RawSetterIsUnseen(PowerSupply, shape, CurrentLevel, "source");
    case Unlisted(SetOvpValue) => RawSetterIsUnseen(PowerSupply, shape, OvpLevel, "channel");
    case Unlisted(SetOcpValue) => RawSetterIsUnseen(PowerSupply, shape, OcpLevel, "channel");
  }

  lemma NamedIsSeenByPosition(role: Role, shape: Shape, name: string, register: Register)
    requires Fits(Named(name, register).params, shape) && KindOf(register).Some? && ProtectionOff(shape.func).None?
    requires IsGuarded(Some(role), shape.func) && ValueLimit(role, shape.func) == KindOf(register)
    ensures IsSeen(role, shape, Named(name, register)) <==> shape.names == {}
  {
    var params := Named(name, register).params;
    assert params[0] == Param(OwnName(name), {register});
    if given :| given in shape.names {
      assert given == OwnName(name) && shape.count == 0;
      assert register in params[0].writes;
      assert !ParamIsSeen(role, shape, params, 0);
    }
  }

  lemma ApplyIsUnseen(shape: Shape)
    requires shape.func == Unlisted(ApplySetpoint) && Fits(EloadMethod(shape.func).value.params, shape)
    ensures IsSeen(Eload, shape, EloadMethod(shape.func).value) <==> shape.count <= 1 && ValueName !in shape.names
  {
    var params := EloadMethod(shape.func).value.params;
    assert params[0] == Param(OwnName("kind"), {});
    assert CurrentLevel in params[1].writes && params[1].name == ValueName;
    assert IsGiven(shape, params, 1) <==> !(shape.count <= 1 && ValueName !in shape.names);
    if IsGiven(shape, params, 1) {
      assert !ParamIsSeen(Eload, shape, params, 1);
    } else {
      assert ParamIsSeen(Eload, shape, params, 0) && ParamIsSeen(Eload, shape, params, 1);
    }
  }

  /** Of an electronic load: only the two legacy setters, and these by position. */
  lemma EloadShapes(shape: Shape)
    requires shape.device == DL3021 && EloadMethod(shape.func).Some? && Fits(EloadMethod(shape.func).value.params, shape)
    ensures ShapeIsSeen(EloadDriver(), Eload, shape) <==>
              if shape.func.SetCurrent? || shape.func.SetVoltage? then shape.names == {}
              else if shape.func.Unlisted? then shape.count <= 1 && ValueName !in shape.names
              else !GivesValue(shape)
  {
    assert EloadDriver()[(DL3021, shape.func)] == EloadMethod(shape.func).value;
    hide IsSeen, EloadDriver, Fits, Setter, Named;
    match shape.func
    case Current => SetterIsSeen(Eload, shape, CurrentLevel);
    case Voltage => SetterIsSeen(Eload, shape, VoltageLevel);
    case SetCurrent => NamedIsSeenByPosition(Eload, shape, "current", CurrentLevel);
    case SetVoltage => NamedIsSeenByPosition(Eload, shape, "voltage", VoltageLevel);
    case Unlisted(_) => ApplyIsUnseen(shape);
  }

  /** Of a battery simulator: not the second names. */
  lemma BatteryShapes(shape: Shape)
    requires shape.device == BATTERY && BatteryMethod(shape.func).Some? && Fits(BatteryMethod(shape.func).value.params, shape)
    ensures ShapeIsSeen(BatteryDriver(), Battery, shape) <==> (shape.func.Unlisted? ==> !GivesValue(shape))
  {
    assert BatteryDriver()[(BATTERY, shape.func)] == BatteryMethod(shape.func).value;
    var register :| BatteryMethod(shape.func) == Some(Setter(register)) && KindOf(register).Some?
                    && (shape.func.Unlisted? || ValueLimit(Battery, shape.func) == KindOf(register));
    hide IsSeen, BatteryDriver, BatteryMethod, Fits, Setter;
    SetterIsSeen(Battery, shape, register);
  }

  // -------------------------------------------------------------------------
  // Calls that pass, above a ceiling
  // -------------------------------------------------------------------------

  /** The interlock lets a request through that may set a register above the net's ceiling. */
  ghost predicate Passes(nets: seq<Record>, record: Record, drivers: Drivers, info: Info, call: Call, effect: Effect) {
    && IsSaved(nets, record) && Reaches(record, info)
    && Checked(nets, map[], info, call, 0.0, 1.0, 1).0 == Allowed
    && May(drivers, call, effect) && !EffectWithin(record.limits.value, effect)
  }

  lemma PassesBreaks(nets: seq<Record>, record: Record, drivers: Drivers, info: Info, call: Call, effect: Effect)
    requires Passes(nets, record, drivers, info, call, effect)
    ensures var request := Request(info, call, 0.0, [effect]);
            CanHappen(drivers, request) && !Stays(nets, record, State(Instrument(map[], {}), map[]), [request], 1.0, 1)
  {
    BrokenBy(nets, record, Request(info, call, 0.0, [effect]), effect);
  }

  function NetOf(name: string, role: Role, address: string, limits: Option<Limits>): Record {
    Record(Some(name), Some(role), address, None, None, limits)
  }

  /** `current(40.0)` of an electronic load, which its documentation tells users to call. */
  lemma EloadCurrentPasses()
    ensures var record := NetOf("load", Eload, "a", Some(Limits(None, Some(2.0))));
            Passes([record], record, EloadDriver(), Info("load", "a", None, None),
                   Call(DL3021, Current, [Number(40.0)], map[]), Write(CurrentLevel, 40.0))
  {
    var record := NetOf("load", Eload, "a", Some(Limits(None, Some(2.0))));
    var call := Call(DL3021, Current, [Number(40.0)], map[]);
    OneNetIsSaved(record);
    assert RoutineOf(EloadDriver(), call).params[0] == Param(ValueName, {CurrentLevel});
    assert Bound(RoutineOf(EloadDriver(), call).params, call, 0) == Number(40.0);
  }

  /** `set_current(current=40.0)`: the right method, by a keyword that is not looked for. */
  lemma OwnKeywordPasses()
    ensures var record := NetOf("load", Eload, "a", Some(Limits(None, Some(2.0))));
            Passes([record], record, EloadDriver(), Info("load", "a", None, None),
                   Call(DL3021, SetCurrent, [], map[OwnName("current") := Number(40.0)]), Write(CurrentLevel, 40.0))
  {
    var record := NetOf("load", Eload, "a", Some(Limits(None, Some(2.0))));
    var call := Call(DL3021, SetCurrent, [], map[OwnName("current") := Number(40.0)]);
    OneNetIsSaved(record);
    assert RoutineOf(EloadDriver(), call).params[0] == Param(OwnName("current"), {CurrentLevel});
    assert Bound(RoutineOf(EloadDriver(), call).params, call, 0) == Number(40.0);
  }

  /** The raw setter of a supply's trip, which its mapper calls for `set_ovp`. */
  lemma TripSetterPasses()
    ensures var record := NetOf("psu", PowerSupply, "a", Some(Limits(Some(5.0), None)));
            Passes([record], record, SupplyDriver(), Info("psu", "a", None, None),
                   Call(DP700, Unlisted(SetOvpValue), [Number(30.0)], map[]), Write(OvpLevel, 30.0))
  {
    var record := NetOf("psu", PowerSupply, "a", Some(Limits(Some(5.0), None)));
    var call := Call(DP700, Unlisted(SetOvpValue), [Number(30.0)], map[]);
    OneNetIsSaved(record);
    assert RoutineOf(SupplyDriver(), call).params[0] == Param(ValueName, {OvpLevel});
    assert Bound(RoutineOf(SupplyDriver(), call).params, call, 0) == Number(30.0);
  }

  lemma SupplyVoltageMay(x: real)
    ensures May(SupplyDriver(), Call(DP700, Voltage, [Number(x)], map[]), Write(VoltageLevel, x))
  {
    var call := Call(DP700, Voltage, [Number(x)], map[]);
    assert RoutineOf(SupplyDriver(), call).params[0] == Param(ValueName, {VoltageLevel});
    assert Bound(RoutineOf(SupplyDriver(), call).params, call, 0) == Number(x);
  }

  /** A request with the address of a limited net, and the name of another. */
  lemma OtherNamePasses()
    ensures var limited := NetOf("dut", PowerSupply, "a", Some(Limits(Some(5.0), None)));
            var free := NetOf("free", PowerSupply, "b", None);
            Passes([limited, free], limited, SupplyDriver(), Info("free", "a", None, None),
                   Call(DP700, Voltage, [Number(40.0)], map[]), Write(VoltageLevel, 40.0))
  {
    var limited := NetOf("dut", PowerSupply, "a", Some(Limits(Some(5.0), None)));
    var free := NetOf("free", PowerSupply, "b", None);
    assert [limited, free][..1] == [limited];
    OneNetIsSaved(limited);
    SupplyVoltageMay(40.0);
  }

  /** A request without a name, where another net at that address comes first. */
  lemma FirstNetPasses()
    ensures var free := NetOf("free", PowerSupply, "a", None);
            var limited := NetOf("dut", PowerSupply, "a", Some(Limits(Some(5.0), None)));
            Passes([free, limited], limited, SupplyDriver(), Info("", "a", None, None),
                   Call(DP700, Voltage, [Number(40.0)], map[]), Write(VoltageLevel, 40.0))
  {
    var free := NetOf("free", PowerSupply, "a", None);
    var limited := NetOf("dut", PowerSupply, "a", Some(Limits(Some(5.0), None)));
    assert [free, limited][..1] == [free];
    SupplyVoltageMay(40.0);
  }
}
