/**
  The verdicts of the interlock over whole runs: which calls it counts, which of
  them it finds too many, and what it answers when several things are wrong.
*/
module InterlockRuns {
  import opened Options
  import opened NetsCache
  import opened RateLimit
  import opened Safety

  // -------------------------------------------------------------------------
  // The net that a request means
  // -------------------------------------------------------------------------

  /** Of the nets at the stated address, on the stated channel if there is one, the first that has a name. */
  ghost predicate FirstAt(nets: seq<Record>, info: Info, k: int) {
    && 0 <= k < |nets| && MayBe(nets[k], info)
    && forall j :: 0 <= j < k ==> !MayBe(nets[j], info)
  }

  predicate MayBe(record: Record, info: Info) {
    && record.name.Some? && record.name.value != "" && record.address == info.address
    && (info.channel.Some? ==> info.channel == record.channel)
  }

  /** A name that is stated is taken; without one, and with an address, it is the first net there. */
  lemma {:induction false} ResolvesTo(nets: seq<Record>, info: Info)
    ensures info.name != "" ==> ResolveNetName(nets, info) == Some(info.name)
    ensures info.name == "" && info.address == "" ==> ResolveNetName(nets, info) == None
    ensures info.name == "" && info.address != "" ==>
              && (forall k :: FirstAt(nets, info, k) ==> ResolveNetName(nets, info) == nets[k].name)
              && ((forall k :: 0 <= k < |nets| ==> !MayBe(nets[k], info)) ==> ResolveNetName(nets, info) == None)
  {
    if info.name == "" && info.address != "" {
      FirstMatchIsFirst(nets, info);
    }
  }

  lemma {:induction false} FirstMatchIsFirst(nets: seq<Record>, info: Info)
    ensures forall k :: FirstAt(nets, info, k) ==> FirstMatch(nets, info) == nets[k].name
    ensures (forall k :: 0 <= k < |nets| ==> !MayBe(nets[k], info)) ==> FirstMatch(nets, info) == None
  {
    if nets != [] {
      FirstMatchIsFirst(nets[1..], info);
      assert forall j :: 0 <= j < |nets| - 1 ==> nets[1..][j] == nets[j + 1];
      forall k | FirstAt(nets, info, k)
        ensures FirstMatch(nets, info) == nets[k].name
      {
        if k > 0 {
          assert forall j :: 0 <= j < k - 1 ==> nets[1..][j] == nets[j + 1];
          assert !MayBe(nets[0], info) && FirstAt(nets[1..], info, k - 1);
        }
      }
    }
  }

  // -------------------------------------------------------------------------
  // The calls that are counted
  // -------------------------------------------------------------------------

  /** The setters and trips with a ceiling for some role, the output switches, and clearing a trip. */
  predicate IsCapped(func: Func) {
    || func == Voltage || func == Current || func == Ovp || func == Ocp
    || func == Voc || func == VoltageFull || func == VoltageEmpty || func == CurrentLimit
    || func == SetCurrent || func == SetVoltage
    || func == Enable || func == Disable || func == ClearOvp || func == ClearOcp
  }

  /** The methods that turn off a trip, and the ceiling that each would leave with nothing behind it. */
  predicate IsOffSwitch(func: Func, kind: Kind) {
    || (kind == MaxCurrent && (func == DisableOcp || func == DisableOvercurrentProtection))
    || (kind == MaxVoltage && (func == DisableOvp || func == DisableOvervoltageProtection))
  }

  predicate IsAnyOffSwitch(func: Func) {
    IsOffSwitch(func, MaxCurrent) || IsOffSwitch(func, MaxVoltage)
  }

  datatype Invocation = Invocation(info: Info, call: Call, now: real)

  /** The saved net that the invocation is for has limits, and is a supply, a battery simulator or a load. */
  predicate IsLimited(record: Record) {
    record.limits.Some? && record.role.Some? && !record.role.value.OtherRole?
  }

  /** A call of a capped method on a limited net that asks for nothing it must not. */
  ghost predicate Counts(nets: seq<Record>, inv: Invocation, key: (string, Func)) {
    && ResolveNetName(nets, inv.info) == Some(key.0) && inv.call.func == key.1 && IsCapped(key.1)
    && var record := FindByName(nets, key.0);
       && record.Some? && IsLimited(record.value)
       && ValueVerdict(record.value.role.value, record.value.limits.value, inv.call) == Allowed
  }

  function WindowsAfter(nets: seq<Record>, invs: seq<Invocation>, length: real, maxCalls: nat): Windows {
    if invs == [] then map[]
    else
      var n := |invs| - 1;
      Checked(nets, WindowsAfter(nets, invs[..n], length, maxCalls), invs[n].info, invs[n].call, invs[n].now, length, maxCalls).1
  }

  function VerdictAt(nets: seq<Record>, invs: seq<Invocation>, k: nat, length: real, maxCalls: nat): Verdict
    requires k < |invs|
  {
    var windows := WindowsAfter(nets, invs[..k], length, maxCalls);
    Checked(nets, windows, invs[k].info, invs[k].call, invs[k].now, length, maxCalls).0
  }

  function KeyOf(nets: seq<Record>, inv: Invocation): (string, Func) {
    var name := ResolveNetName(nets, inv.info);
    (if name.Some? then name.value else "", inv.call.func)
  }

  lemma ValueIsNotRate(role: Role, limits: Limits, call: Call)
    ensures ValueVerdict(role, limits, call) != TooOften
  {
  }

  lemma CountedIff(nets: seq<Record>, windows: Windows, inv: Invocation, length: real, maxCalls: nat)
    ensures var key := KeyOf(nets, inv);
            var (verdict, after) := Checked(nets, windows, inv.info, inv.call, inv.now, length, maxCalls);
            if Counts(nets, inv, key) then
              && after == CountedAt(windows, key, inv.now, length)
              && verdict == if after[key].count > maxCalls then TooOften else Allowed
            else after == windows && verdict != TooOften
  {
    forall role, limits, call ensures ValueVerdict(role, limits, call) != TooOften {
      ValueIsNotRate(role, limits, call);
    }
    hide ValueVerdict, ResolveNetName, CountedAt, FindByName;
  }

  /** The times of the counted calls under one key, in order. */
  ghost function CountedTimes(nets: seq<Record>, invs: seq<Invocation>, key: (string, Func)): seq<real> {
    if invs == [] then []
    else
      var n := |invs| - 1;
      CountedTimes(nets, invs[..n], key) + if Counts(nets, invs[n], key) then [invs[n].now] else []
  }

  /** The window that is kept under a key is the one of its own counted calls. */
  lemma {:induction false} WindowOfKey(nets: seq<Record>, invs: seq<Invocation>, key: (string, Func), length: real, maxCalls: nat)
    ensures var times := CountedTimes(nets, invs, key);
            var windows := WindowsAfter(nets, invs, length, maxCalls);
            RateLimit.After(times, |times|, length) == if key in windows then Some(windows[key]) else None
  {
    hide Counts, Checked, KeyOf;
    if invs != [] {
      var n := |invs| - 1;
      WindowOfKey(nets, invs[..n], key, length, maxCalls);
      CountedIff(nets, WindowsAfter(nets, invs[..n], length, maxCalls), invs[n], length, maxCalls);
      CountsUnderItsKey(nets, invs[n], key);
      var before := CountedTimes(nets, invs[..n], key);
      if Counts(nets, invs[n], key) {
        AfterPrefix(before, |before|, [invs[n].now], length);
        assert (before + [invs[n].now])[|before|] == invs[n].now;
      } else {
        assert before + [] == before;
      }
    }
  }

  lemma CountsUnderItsKey(nets: seq<Record>, inv: Invocation, key: (string, Func))
    ensures Counts(nets, inv, key) ==> key == KeyOf(nets, inv)
  {
    hide ValueVerdict, ResolveNetName, FindByName, IsCapped;
  }

  /**
    Over any run of calls on any nets: a call is refused as too frequent exactly
    if it is counted and its place among the counted calls of its net and method
    is beyond the cap of their window.  Nothing else is, and no other call counts.
  */
  lemma TooOftenIff(nets: seq<Record>, invs: seq<Invocation>, k: nat, key: (string, Func), length: real, maxCalls: nat)
    requires k < |invs|
    ensures Counts(nets, invs[k], key) ==>
              var times := CountedTimes(nets, invs[..k + 1], key);
              && times == CountedTimes(nets, invs[..k], key) + [invs[k].now]
              && VerdictAt(nets, invs, k, length, maxCalls)
                 == if Admitted(times, |times| - 1, length, maxCalls) then Allowed else TooOften
    ensures !Counts(nets, invs[k], KeyOf(nets, invs[k])) ==> VerdictAt(nets, invs, k, length, maxCalls) != TooOften
  {
    hide Counts, Checked, KeyOf;
    assert invs[..k + 1][..k] == invs[..k];
    CountedIff(nets, WindowsAfter(nets, invs[..k], length, maxCalls), invs[k], length, maxCalls);
    WindowOfKey(nets, invs[..k + 1], key, length, maxCalls);
    CountsUnderItsKey(nets, invs[k], key);
  }

  // -------------------------------------------------------------------------
  // How many get through
  // -------------------------------------------------------------------------

  /** How many of the calls from `lo` up to `hi` count under a key and are allowed. */
  ghost function AllowedIn(nets: seq<Record>, invs: seq<Invocation>, lo: nat, hi: nat, key: (string, Func),
                           length: real, maxCalls: nat): nat
    requires lo <= hi <= |invs|
    decreases hi
  {
    if lo == hi then 0
    else
      AllowedIn(nets, invs, lo, hi - 1, key, length, maxCalls)
      + if Counts(nets, invs[hi - 1], key) && VerdictAt(nets, invs, hi - 1, length, maxCalls) == Allowed then 1 else 0
  }

  lemma {:induction false} TimesGrow(nets: seq<Record>, invs: seq<Invocation>, lo: nat, hi: nat, key: (string, Func))
    requires lo <= hi <= |invs|
    ensures CountedTimes(nets, invs[..lo], key) <= CountedTimes(nets, invs[..hi], key)
    decreases hi
  {
    hide Counts;
    if lo < hi {
      assert invs[..hi][..hi - 1] == invs[..hi - 1];
      TimesGrow(nets, invs, lo, hi - 1, key);
    }
  }

  lemma {:induction false} AllowedIsAdmitted(nets: seq<Record>, invs: seq<Invocation>, lo: nat, hi: nat, key: (string, Func),
                                             length: real, maxCalls: nat)
    requires lo <= hi <= |invs|
    ensures var times := CountedTimes(nets, invs[..hi], key);
            var from := |CountedTimes(nets, invs[..lo], key)|;
            && from <= |times|
            && AllowedIn(nets, invs, lo, hi, key, length, maxCalls) == AdmittedIn(times, from, |times|, length, maxCalls)
    decreases hi
  {
    hide Counts, VerdictAt, Admitted;
    TimesGrow(nets, invs, lo, hi, key);
    if lo < hi {
      assert invs[..hi][..hi - 1] == invs[..hi - 1];
      TimesGrow(nets, invs, lo, hi - 1, key);
      AllowedIsAdmitted(nets, invs, lo, hi - 1, key, length, maxCalls);
      var before := CountedTimes(nets, invs[..hi - 1], key);
      var from := |CountedTimes(nets, invs[..lo], key)|;
      if Counts(nets, invs[hi - 1], key) {
        TooOftenIff(nets, invs, hi - 1, key, length, maxCalls);
        AdmittedPrefix(before, from, |before|, [invs[hi - 1].now], length, maxCalls);
      } else {
        assert before + [] == before;
      }
    }
  }

  lemma {:induction false} AdmittedPrefix(times: seq<real>, lo: nat, hi: nat, more: seq<real>, length: real, maxCalls: nat)
    requires lo <= hi <= |times|
    ensures AdmittedIn(times + more, lo, hi, length, maxCalls) == AdmittedIn(times, lo, hi, length, maxCalls)
    decreases hi
  {
    if lo < hi {
      AdmittedPrefix(times, lo, hi - 1, more, length, maxCalls);
      AfterPrefix(times, hi, more, length);
    }
  }

  ghost predicate InOrder(invs: seq<Invocation>) {
    forall a, b :: 0 <= a <= b < |invs| ==> invs[a].now <= invs[b].now
  }

  /** Every counted time is that of one of the calls. */
  lemma {:induction false} TimesAreOfCalls(nets: seq<Record>, invs: seq<Invocation>, lo: nat, hi: nat, key: (string, Func))
    requires InOrder(invs) && lo <= hi <= |invs|
    ensures var times := CountedTimes(nets, invs[..hi], key);
            && Ordered(times)
            && (forall j :: 0 <= j < |times| ==> exists k :: 0 <= k < hi && times[j] == invs[k].now)
            && (forall j :: |CountedTimes(nets, invs[..lo], key)| <= j < |times| ==>
                  exists k :: lo <= k < hi && times[j] == invs[k].now)
    decreases hi
  {
    hide Counts;
    if hi > 0 {
      assert invs[..hi][..hi - 1] == invs[..hi - 1];
      TimesAreOfCalls(nets, invs, if lo < hi then lo else hi - 1, hi - 1, key);
    }
  }

  /**
    Whatever calls come, in any interval as long as a window, closed at its start
    and open at its end, fewer than twice the cap of them are let through under
    one net and method.
  */
  lemma AtMostInAnyIntervalAllowed(nets: seq<Record>, invs: seq<Invocation>, lo: nat, hi: nat, key: (string, Func),
                                   from: real, length: real, maxCalls: nat)
    requires InOrder(invs) && lo <= hi <= |invs| && length > 0.0 && maxCalls > 0
    requires forall k :: lo <= k < hi ==> from <= invs[k].now < from + length
    ensures AllowedIn(nets, invs, lo, hi, key, length, maxCalls) <= 2 * maxCalls - 1
  {
    AllowedIsAdmitted(nets, invs, lo, hi, key, length, maxCalls);
    TimesAreOfCalls(nets, invs, lo, hi, key);
    var times := CountedTimes(nets, invs[..hi], key);
    AtMostInAnyInterval(times, |CountedTimes(nets, invs[..lo], key)|, |times|, from, length, maxCalls);
  }

  /** In one window, no more than the cap. */
  lemma AtMostInAWindowAllowed(nets: seq<Record>, invs: seq<Invocation>, lo: nat, hi: nat, key: (string, Func),
                               length: real, maxCalls: nat)
    requires InOrder(invs) && lo <= hi <= |invs| && length > 0.0
    requires var times := CountedTimes(nets, invs[..hi], key);
             var from := |CountedTimes(nets, invs[..lo], key)|;
             from < |times| ==> StartOf(times, from, length) == StartOf(times, |times| - 1, length)
    ensures AllowedIn(nets, invs, lo, hi, key, length, maxCalls) <= maxCalls
  {
    AllowedIsAdmitted(nets, invs, lo, hi, key, length, maxCalls);
    TimesAreOfCalls(nets, invs, lo, hi, key);
    var times := CountedTimes(nets, invs[..hi], key);
    var from := |CountedTimes(nets, invs[..lo], key)|;
    if from < |times| {
      AtMostPerWindow(times, from, |times|, length, maxCalls);
    }
  }

  /**
    A net that is not driven hard is never refused: a counted call goes through
    if the one as many places before it as the cap allows is a window ago.
  */
  lemma SlowCallsAreAllowed(nets: seq<Record>, invs: seq<Invocation>, k: nat, key: (string, Func), length: real, maxCalls: nat)
    requires InOrder(invs) && k < |invs| && length > 0.0 && maxCalls > 0 && Counts(nets, invs[k], key)
    requires var times := CountedTimes(nets, invs[..k], key);
             |times| >= maxCalls ==> times[|times| - maxCalls] <= invs[k].now - length
    ensures VerdictAt(nets, invs, k, length, maxCalls) == Allowed
  {
    TooOftenIff(nets, invs, k, key, length, maxCalls);
    TimesAreOfCalls(nets, invs, 0, k + 1, key);
    var times := CountedTimes(nets, invs[..k + 1], key);
    SlowIsAdmitted(times, |times| - 1, length, maxCalls);
  }

  // -------------------------------------------------------------------------
  // What is reported when something is wrong
  // -------------------------------------------------------------------------

  /** A call that asks for what it must not is never told that it is too frequent. */
  lemma UnsafeBeforeTooOften(nets: seq<Record>, windows: Windows, inv: Invocation, length: real, maxCalls: nat)
    requires var name := ResolveNetName(nets, inv.info);
      && name.Some? && FindByName(nets, name.value).Some? && IsLimited(FindByName(nets, name.value).value)
    ensures var record := FindByName(nets, ResolveNetName(nets, inv.info).value).value;
            var asked := ValueVerdict(record.role.value, record.limits.value, inv.call);
            var verdict := Checked(nets, windows, inv.info, inv.call, inv.now, length, maxCalls).0;
            asked != Allowed && (IsCapped(inv.call.func) || IsAnyOffSwitch(inv.call.func)) ==> verdict == asked
  {
    hide ValueVerdict, ResolveNetName, FindByName;
  }

  /** Some number of this kind that the call gives is outside the ceiling, on either side of zero. */
  ghost predicate AsksAbove(role: Role, call: Call, kind: Kind, ceiling: real) {
    exists x :: IsAskedFor(role, call, kind, x) && (x > ceiling || -x > ceiling)
  }

  /** A setpoint or a trip of this kind that the call gives: by its keyword, or else first. */
  predicate IsAskedFor(role: Role, call: Call, kind: Kind, x: real) {
    || (ValueLimit(role, call.func) == Some(kind)
        && (if ValueName in call.kwargs && call.kwargs[ValueName] != Null then call.kwargs[ValueName] == Number(x)
            else call.args != [] && call.args[0] == Number(x)))
    || (OvpName in call.kwargs && call.kwargs[OvpName] == Number(x) && kind == MaxVoltage)
    || (OcpName in call.kwargs && call.kwargs[OcpName] == Number(x) && kind == MaxCurrent)
  }

  /** What a refusal says is true, and a trip that is turned off is reported before any number. */
  lemma RefusalsAreTrue(role: Role, limits: Limits, call: Call)
    ensures match ValueVerdict(role, limits, call)
            case ProtectionStaysOn(kind) => IsOffSwitch(call.func, kind) && Ceiling(limits, kind).Some?
            case LimitExceeded(kind) =>
              && Ceiling(limits, kind).Some? && AsksAbove(role, call, kind, Ceiling(limits, kind).value)
              && (forall off :: IsOffSwitch(call.func, off) ==> Ceiling(limits, off).None?)
            case Allowed =>
              forall kind :: Ceiling(limits, kind).Some? ==>
                !IsOffSwitch(call.func, kind) && !AsksAbove(role, call, kind, Ceiling(limits, kind).value)
            case _ => false
  {
    match ValueVerdict(role, limits, call)
    case LimitExceeded(kind) =>
      var limit := ValueLimit(role, call.func);
      if limit == Some(kind) && Exceeds(limits, kind, ExtractValue(call)) {
        assert IsAskedFor(role, call, kind, ExtractValue(call).value);
      } else {
        assert IsAskedFor(role, call, kind, Keyword(call, if kind == MaxVoltage then OvpName else OcpName).value);
      }
    case _ =>
  }

  /**
    A net that is not saved, states no role, or has no limits is not held to
    anything; nor is one of another role, but for the trips: those stay on for
    whatever its limits are.
  */
  lemma UnlimitedIsAllowed(nets: seq<Record>, windows: Windows, inv: Invocation, length: real, maxCalls: nat)
    requires ResolveNetName(nets, inv.info).Some?
    ensures var found := FindByName(nets, ResolveNetName(nets, inv.info).value);
            var outcome := Checked(nets, windows, inv.info, inv.call, inv.now, length, maxCalls);
            && (found.None? || found.value.limits.None? || found.value.role.None? || found.value.role == Some(OtherRole("")) ==>
                  outcome == (Allowed, windows))
            && (found.Some? && found.value.role.Some? && found.value.role.value.OtherRole? && !IsAnyOffSwitch(inv.call.func) ==>
                  outcome == (Allowed, windows))
            && (found.Some? && found.value.role.Some? && found.value.role.value != OtherRole("") && found.value.limits.Some? ==>
                  forall kind :: IsOffSwitch(inv.call.func, kind) && Ceiling(found.value.limits.value, kind).Some? ==>
                    outcome == (ProtectionStaysOn(kind), windows))
  {
    hide ResolveNetName, FindByName;
  }

  /** Without a net, a call that some net might guard is refused exactly if some net has limits. */
  lemma UnidentifiedIff(nets: seq<Record>, windows: Windows, inv: Invocation, length: real, maxCalls: nat)
    ensures Checked(nets, windows, inv.info, inv.call, inv.now, length, maxCalls).0 == Unidentified <==>
              && ResolveNetName(nets, inv.info).None?
              && (IsCapped(inv.call.func) || IsAnyOffSwitch(inv.call.func))
              && exists k :: 0 <= k < |nets| && nets[k].limits.Some?
  {
    hide ResolveNetName, FindByName;
  }
}
