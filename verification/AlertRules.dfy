/** Target configurations and the alert rules of one probe, on values. */
module AlertRules {
  import opened Options

  datatype TargetConfig = TargetConfig(
    probe: int, mode: string, targetValue: Option<real>, rangeLow: Option<real>, rangeHigh: Option<real>,
    preAlertOffset: real, reminderInterval: int, lbl: Option<string>, unit: string)

  function EffectiveTarget(t: TargetConfig): Option<real> {
    if t.mode == "fixed" then t.targetValue else if t.mode == "range" then t.rangeHigh else None
  }

  function EffectiveLow(t: TargetConfig): Option<real> {
    if t.mode == "range" then t.rangeLow else None
  }

  function ToCelsius(value: real, unit: string): real {
    if unit == "F" then (value - 32.0) * 5.0 / 9.0 else value
  }

  /** A difference of temperatures: the 32 degree shift cancels. */
  function OffsetToCelsius(offset: real, unit: string): real {
    if unit == "F" then offset * 5.0 / 9.0 else offset
  }

  /** The effective target in the unit readings come in. */
  function Ceiling(t: TargetConfig): Option<real> {
    var e := EffectiveTarget(t);
    if e.Some? then Some(ToCelsius(e.value, t.unit)) else None
  }

  /** An offset is the distance, in Celsius, between two temperatures that far apart. */
  lemma OffsetIsDistance(value: real, offset: real, unit: string)
    ensures ToCelsius(value, unit) - ToCelsius(value - offset, unit) == OffsetToCelsius(offset, unit)
  {
  }

  // ---------------------------------------------------------------- state of one probe

  datatype Flags = Flags(approaching: bool, approachingHigh: bool, reached: bool, exceeded: bool, lastReminder: real)

  const FRESH := Flags(false, false, false, false, 0.0)

  datatype Key = Key(session: string, probe: int)

  datatype Kind = Approaching | ApproachingHigh | Reached | Exceeded | Reminder

  /** What an observer of the evaluator sees, in order. */
  datatype Event =
    | Rearmed(keys: set<Key>)                                    // these probes start over
    | Read(key: Key, sensor: string, temp: real, ceiling: real)  // a device's reading was held against a target
    | Alert(key: Key, sensor: string, kind: Kind, at: real, interval: int)   // an event was emitted for a device

  datatype Step = Step(flags: Flags, events: seq<Event>)

  /** Where a reading stands against a target. */
  datatype Standing = Standing(approaching: bool, approachingHigh: bool, reached: bool, exceeded: bool)

  /** None when the target cannot be evaluated. */
  function Stand(t: TargetConfig, temp: real): Option<Standing> {
    var c := Ceiling(t);
    var offset := OffsetToCelsius(t.preAlertOffset, t.unit);
    if c.None? then None
    else if t.mode == "fixed" then
      Some(Standing(temp >= c.value - offset && !(temp >= c.value), false, temp >= c.value, temp > c.value))
    else if EffectiveLow(t).None? then None
    else
      var low := ToCelsius(EffectiveLow(t).value, t.unit);
      Some(Standing(
        temp >= low - offset && temp < low,
        temp > c.value - offset && temp <= c.value && !(temp > c.value),
        low <= temp <= c.value,
        temp > c.value))
  }

  /** A reading in the unit of a target. */
  function InUnit(temp: real, unit: string): real {
    if unit == "F" then temp * 9.0 / 5.0 + 32.0 else temp
  }

  lemma UnitsRoundTrip(value: real, temp: real, unit: string)
    ensures ToCelsius(InUnit(temp, unit), unit) == temp
    ensures ToCelsius(value, unit) <= temp <==> value <= InUnit(temp, unit)
    ensures ToCelsius(value, unit) < temp <==> value < InUnit(temp, unit)
  {
  }

  /** What a target asks is asked in its own unit: converting target and offset to Celsius is the same as
      converting the reading to the target's unit. A fixed target is approached within the offset below it,
      reached at it and exceeded above it; a range is approached below its lower bound and, from inside, below
      its upper one, reached inside and exceeded above. */
  lemma StandInOwnUnit(t: TargetConfig, temp: real)
    requires Stand(t, temp).Some?
    ensures var s, own, high := Stand(t, temp).value, InUnit(temp, t.unit), EffectiveTarget(t).value;
      && (s.exceeded <==> own > high)
      && (t.mode == "fixed" ==>
           && (s.reached <==> own >= high)
           && (s.approaching <==> high - t.preAlertOffset <= own < high)
           && !s.approachingHigh)
      && (t.mode == "range" ==> var low := EffectiveLow(t).value;
           && (s.reached <==> low <= own <= high)
           && (s.approaching <==> low - t.preAlertOffset <= own < low)
           && (s.approachingHigh <==> high - t.preAlertOffset < own <= high))
  {
    var high := EffectiveTarget(t).value;
    UnitsRoundTrip(high, temp, t.unit);
    UnitsRoundTrip(high - t.preAlertOffset, temp, t.unit);
    OffsetIsDistance(high, t.preAlertOffset, t.unit);
    if t.mode == "range" {
      var low := EffectiveLow(t).value;
      UnitsRoundTrip(low, temp, t.unit);
      UnitsRoundTrip(low - t.preAlertOffset, temp, t.unit);
      OffsetIsDistance(low, t.preAlertOffset, t.unit);
    }
  }

  /** A target stands for readings exactly when it has a value, and a range a lower bound too. */
  lemma StandsWhenConfigured(t: TargetConfig, temp: real)
    ensures Stand(t, temp).Some? <==>
      || (t.mode == "fixed" && t.targetValue.Some?)
      || (t.mode == "range" && t.rangeLow.Some? && t.rangeHigh.Some?)
  {
  }

  function Send(f: Flags, k: Key, kind: Kind, sensor: string, now: real, interval: int, f': Flags): Step {
    Step(f', [Alert(k, sensor, kind, now, interval)])
  }

  function Approach(f: Flags, k: Key, s: Standing, sensor: string, now: real, iv: int): Step {
    if s.approaching && !f.approaching then Send(f, k, Approaching, sensor, now, iv, f.(approaching := true)) else Step(f, [])
  }

  function ApproachHigh(f: Flags, k: Key, t: TargetConfig, s: Standing, sensor: string, now: real, iv: int): Step {
    if t.mode == "range" && s.approachingHigh && !f.approachingHigh
    then Send(f, k, ApproachingHigh, sensor, now, iv, f.(approachingHigh := true)) else Step(f, [])
  }

  function Reach(f: Flags, k: Key, s: Standing, sensor: string, now: real, iv: int): Step {
    if s.reached && !f.reached
    then Send(f, k, Reached, sensor, now, iv, f.(reached := true, approaching := true)) else Step(f, [])
  }

  function Exceed(f: Flags, k: Key, s: Standing, sensor: string, now: real, iv: int): Step {
    if s.exceeded && !f.exceeded
    then Send(f, k, Exceeded, sensor, now, iv, f.(exceeded := true, reached := true, approaching := true, lastReminder := now))
    else Step(f, [])
  }

  function Remind(f: Flags, k: Key, s: Standing, sensor: string, now: real, iv: int): Step {
    if s.exceeded && iv > 0 && f.exceeded && now - f.lastReminder >= iv as real
    then Send(f, k, Reminder, sensor, now, iv, f.(lastReminder := now)) else Step(f, [])
  }

  /** The announcements for a reading that stands at `s`. */
  function Announcements(f: Flags, k: Key, t: TargetConfig, s: Standing, sensor: string, now: real): Step {
    var a := Approach(f, k, s, sensor, now, t.reminderInterval);
    var b := ApproachHigh(a.flags, k, t, s, sensor, now, t.reminderInterval);
    var c := Reach(b.flags, k, s, sensor, now, t.reminderInterval);
    var d := Exceed(c.flags, k, s, sensor, now, t.reminderInterval);
    var e := Remind(d.flags, k, s, sensor, now, t.reminderInterval);
    Step(e.flags, a.events + b.events + c.events + d.events + e.events)
  }

  /** One reading of one probe against its target. */
  function Judge(f: Flags, k: Key, t: TargetConfig, temp: real, sensor: string, now: real): Step {
    var stand := Stand(t, temp);
    if stand.None? then Step(f, [])
    else
      var said := Announcements(f, k, t, stand.value, sensor, now);
      Step(said.flags, [Read(k, sensor, temp, Ceiling(t).value)] + said.events)
  }

  // ---------------------------------------------------------------- all probes

  datatype Probe = Probe(index: int, unplugged: bool, temp: Option<real>)

  type States = map<Key, Flags>

  type TargetLists = map<string, seq<TargetConfig>>

  /** The first probe with that index. */
  function Lookup(probes: seq<Probe>, index: int): Option<Probe> {
    if probes == [] then None else if probes[0].index == index then Some(probes[0]) else Lookup(probes[1..], index)
  }

  datatype Round = Round(states: States, events: seq<Event>)

  function JudgeTarget(states: States, session: string, t: TargetConfig, probes: seq<Probe>, sensor: string, now: real): Round {
    var p := Lookup(probes, t.probe);
    if p.None? || p.value.unplugged || p.value.temp.None? then Round(states, [])
    else
      var k := Key(session, t.probe);
      var f := if k in states then states[k] else FRESH;
      var step := Judge(f, k, t, p.value.temp.value, sensor, now);
      Round(states[k := step.flags], step.events)
  }

  function JudgeAll(states: States, session: string, ts: seq<TargetConfig>, probes: seq<Probe>, sensor: string, now: real): Round
    decreases |ts|
  {
    if ts == [] then Round(states, [])
    else
      var before := JudgeAll(states, session, ts[..|ts| - 1], probes, sensor, now);
      var last := JudgeTarget(before.states, session, ts[|ts| - 1], probes, sensor, now);
      Round(last.states, before.events + last.events)
  }

  // ---------------------------------------------------------------- replacing targets

  /** The configuration a probe index had in a list; the last one counts. */
  function ByIndex(ts: seq<TargetConfig>, index: int): Option<TargetConfig>
    decreases |ts|
  {
    if ts == [] then None
    else if ts[|ts| - 1].probe == index then Some(ts[|ts| - 1]) else ByIndex(ts[..|ts| - 1], index)
  }

  /** A change of target starts a probe over unless the target was and is comparable and was not raised. */
  predicate StartsOver(was: TargetConfig, now: TargetConfig) {
    Ceiling(was).None? || Ceiling(now).None? || Ceiling(now).value > Ceiling(was).value
  }

  datatype Arming = Arming(states: States, rearmed: set<Key>)

  function ArmOne(a: Arming, session: string, olds: seq<TargetConfig>, t: TargetConfig): Arming {
    var k := Key(session, t.probe);
    var was := ByIndex(olds, t.probe);
    if k !in a.states || (was.Some? && StartsOver(was.value, t))
    then Arming(a.states[k := FRESH], a.rearmed + {k}) else a
  }

  function ArmAll(a: Arming, session: string, olds: seq<TargetConfig>, ts: seq<TargetConfig>): Arming
    decreases |ts|
  {
    if ts == [] then a else ArmOne(ArmAll(a, session, olds, ts[..|ts| - 1]), session, olds, ts[|ts| - 1])
  }

  predicate Targeted(ts: seq<TargetConfig>, index: int) {
    exists i | 0 <= i < |ts| :: ts[i].probe == index
  }

  function Stale(states: States, session: string, ts: seq<TargetConfig>): set<Key> {
    set k | k in states && k.session == session && !Targeted(ts, k.probe)
  }

  function Retarget(states: States, session: string, olds: seq<TargetConfig>, ts: seq<TargetConfig>): Arming {
    var stale := Stale(states, session, ts);
    ArmAll(Arming(states - stale, stale), session, olds, ts)
  }

  function OfSession(states: States, session: string): set<Key> {
    set k | k in states && k.session == session
  }
}
