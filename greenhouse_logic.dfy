/**
 * The decision logic of greenhouse_control.c as functions of the readings, the
 * configuration and the previous state: the device run-status record, the alarm flag
 * set and the beep it selects, the three hysteresis channels and the fan speed tiers.
 */
module GreenhouseLogic {
  import opened Ints
  import Config
  import Beep

  /** Work modes and device states (greenhouse_control.h). */
  const MODE_AUTO: u8 := 0
  const MODE_MANUAL: u8 := 1
  const DEVICE_OFF: u8 := 0
  const DEVICE_ON: u8 := 1

  /** The alarm flags: six distinct single bits. */
  const ALARM_NONE: u8 := 0x00
  const ALARM_HIGH_TEMP: u8 := 0x01
  const ALARM_LOW_TEMP: u8 := 0x02
  const ALARM_HIGH_HUMI: u8 := 0x04
  const ALARM_LOW_HUMI: u8 := 0x08
  const ALARM_LOW_LIGHT: u8 := 0x10
  const ALARM_SENSOR_ERROR: u8 := 0x20

  /** C's `!x` on a u8. */
  function Not(x: u8): (r: u8)
    ensures r == 0 <==> x != 0
    ensures r <= 1
  {
    if x == 0 then 1 else 0
  }

  /** `!` toggles between the two modes and between the two device states. */
  lemma NotToggles()
    ensures Not(MODE_AUTO) == MODE_MANUAL && Not(MODE_MANUAL) == MODE_AUTO
    ensures Not(DEVICE_OFF) == DEVICE_ON && Not(DEVICE_ON) == DEVICE_OFF
  {
  }

  /*
   * The device run-status record.
   */

  /** DeviceRunStatus_t. */
  datatype RunStatus = RunStatus(status: u8, lastOn: u32, lastOff: u32, total: u32, switches: u16)

  /** The record as Greenhouse_Init leaves it. */
  const IDLE := RunStatus(DEVICE_OFF, 0, 0, 0, 0)

  /** (total + (now − stamp)) in u32 arithmetic. */
  function AddSince(total: u32, now: u32, stamp: u32): u32
  {
    Wrap32(total + Wrap32(now - stamp))
  }

  /**
   * Greenhouse_Update_Device_Status at time `now` (system_time_ms): a new status is
   * recorded with its time stamp and one more switch; the time since the opposite
   * stamp is added to the total when that stamp is set.
   */
  function UpdateDeviceStatus(d: RunStatus, s: u8, now: u32): (r: RunStatus)
    ensures r.status == s
    ensures d.status == s ==> r == d
    ensures d.status != s ==> r.switches == Wrap16(d.switches + 1)
    ensures d.status != s && s == DEVICE_ON ==> r.lastOn == now && r.lastOff == d.lastOff
    ensures d.status != s && s != DEVICE_ON ==> r.lastOff == now && r.lastOn == d.lastOn
  {
    if d.status == s then d
    else if s == DEVICE_ON then
      var total := if d.status == DEVICE_OFF && d.lastOff > 0 then AddSince(d.total, now, d.lastOff) else d.total;
      RunStatus(s, now, d.lastOff, total, Wrap16(d.switches + 1))
    else
      var total := if d.status == DEVICE_ON && d.lastOn > 0 then AddSince(d.total, now, d.lastOn) else d.total;
      RunStatus(s, d.lastOn, now, total, Wrap16(d.switches + 1))
  }

  /** Repeating an update with the same status changes nothing more. */
  lemma UpdateIdempotent(d: RunStatus, s: u8, now: u32, later: u32)
    ensures UpdateDeviceStatus(UpdateDeviceStatus(d, s, now), s, later) == UpdateDeviceStatus(d, s, now)
  {
  }

  /** The record after a series of (status, time) updates. */
  function Replay(d: RunStatus, events: seq<(u8, u32)>): RunStatus
    decreases |events|
  {
    if events == [] then d
    else UpdateDeviceStatus(Replay(d, events[..|events| - 1]), events[|events| - 1].0, events[|events| - 1].1)
  }

  /** How many updates in a series change the status, starting from status s. */
  function Changes(s: u8, events: seq<(u8, u32)>): nat
    decreases |events|
  {
    if events == [] then 0
    else
      var before := if |events| == 1 then s else events[|events| - 2].0;
      Changes(s, events[..|events| - 1]) + (if events[|events| - 1].0 != before then 1 else 0)
  }

  /**
   * switch_count counts the actual changes of state, modulo 2^16, and the status is
   * the last one requested.
   */
  lemma {:induction false} SwitchesCountChanges(d: RunStatus, events: seq<(u8, u32)>)
    ensures Replay(d, events).switches == Wrap16(d.switches + Changes(d.status, events))
    ensures Replay(d, events).status == if events == [] then d.status else events[|events| - 1].0
    decreases |events|
  {
    if events != [] {
      var init := events[..|events| - 1];
      SwitchesCountChanges(d, init);
      if |events| > 1 {
        assert init[|init| - 1] == events[|events| - 2];
      }
      WrapAdd16(d.switches + Changes(d.status, init), 1);
    }
  }

  /**
   * total_run_time grows on both edges: switched on at t1, off at t2 and on again at t3
   * (all after time 0), the total is t3 − t1, the off period included.
   */
  lemma RunTimeCountsBothPhases(t1: u32, t2: u32, t3: u32)
    requires 0 < t1 <= t2 <= t3
    ensures Replay(IDLE, [(DEVICE_ON, t1), (DEVICE_OFF, t2)]).total == t2 - t1
    ensures Replay(IDLE, [(DEVICE_ON, t1), (DEVICE_OFF, t2), (DEVICE_ON, t3)]).total == t3 - t1
    ensures Replay(IDLE, [(DEVICE_ON, t1), (DEVICE_OFF, t2), (DEVICE_ON, t3)]).switches == 3
  {
    var e1, e2, e3 := (DEVICE_ON, t1), (DEVICE_OFF, t2), (DEVICE_ON, t3);
    var a := UpdateDeviceStatus(IDLE, DEVICE_ON, t1);
    var b := UpdateDeviceStatus(a, DEVICE_OFF, t2);
    var c := UpdateDeviceStatus(b, DEVICE_ON, t3);
    ReplayStep(IDLE, [], e1);
    ReplayStep(IDLE, [e1], e2);
    ReplayStep(IDLE, [e1, e2], e3);
    assert [e1, e2] + [e3] == [e1, e2, e3];
    assert Replay(IDLE, [e1]) == a;
    assert Replay(IDLE, [e1, e2]) == b;
    assert Replay(IDLE, [e1, e2, e3]) == c;
  }

  /** Replaying one more update. */
  lemma ReplayStep(d: RunStatus, events: seq<(u8, u32)>, e: (u8, u32))
    ensures Replay(d, events + [e]) == UpdateDeviceStatus(Replay(d, events), e.0, e.1)
  {
    assert (events + [e])[..|events|] == events;
  }

  /** A device switched on at time 0 has no on stamp, so its first run is not counted. */
  lemma RunFromTimeZeroLost(t2: u32)
    ensures Replay(IDLE, [(DEVICE_ON, 0), (DEVICE_OFF, t2)]).total == 0
  {
    var e1, e2 := (DEVICE_ON, 0 as u32), (DEVICE_OFF, t2);
    ReplayStep(IDLE, [], e1);
    ReplayStep(IDLE, [e1], e2);
  }

  /*
   * Alarms.
   */

  /** Whether a flag bit is set in a flag byte: (flags & bit) != 0. */
  predicate Has(flags: u8, bit: int)
    requires bit in {1, 2, 4, 8, 16, 32}
  {
    (flags / bit) % 2 == 1
  }

  function B(c: bool): int { if c then 1 else 0 }

  /** The flag byte for six conditions, in bit order 0x01 .. 0x20. */
  function Flags(highTemp: bool, lowTemp: bool, highHumi: bool, lowHumi: bool, lowLight: bool, sensor: bool): (f: u8)
    ensures f < 64
  {
    B(highTemp) + 2 * B(lowTemp) + 4 * B(highHumi) + 8 * B(lowHumi) + 16 * B(lowLight) + 32 * B(sensor)
  }

  /**
   * Every flag bit reads back its own condition, so distinct condition sets give
   * distinct bytes, and the byte is ALARM_NONE exactly when no condition holds.
   */
  lemma FlagsDecode(a: bool, b: bool, c: bool, d: bool, e: bool, g: bool)
    ensures var f := Flags(a, b, c, d, e, g);
      (Has(f, ALARM_HIGH_TEMP) <==> a) && (Has(f, ALARM_LOW_TEMP) <==> b)
      && (Has(f, ALARM_HIGH_HUMI) <==> c) && (Has(f, ALARM_LOW_HUMI) <==> d)
      && (Has(f, ALARM_LOW_LIGHT) <==> e) && (Has(f, ALARM_SENSOR_ERROR) <==> g)
      && (f == ALARM_NONE <==> !(a || b || c || d || e || g))
  {
    var f := Flags(a, b, c, d, e, g);
    var h1 := B(b) + 2 * B(c) + 4 * B(d) + 8 * B(e) + 16 * B(g);
    DivExact(f, 1, f, 0);
    DivExact(f, 2, h1, B(a));
    var h2 := B(c) + 2 * B(d) + 4 * B(e) + 8 * B(g);
    DivExact(f, 4, h2, B(a) + 2 * B(b));
    var h3 := B(d) + 2 * B(e) + 4 * B(g);
    DivExact(f, 8, h3, B(a) + 2 * B(b) + 4 * B(c));
    var h4 := B(e) + 2 * B(g);
    DivExact(f, 16, h4, B(a) + 2 * B(b) + 4 * B(c) + 8 * B(d));
    DivExact(f, 32, B(g), B(a) + 2 * B(b) + 4 * B(c) + 8 * B(d) + 16 * B(e));
  }

  /** The flags byte is one-to-one on condition sets. */
  lemma FlagsInjective(a: bool, b: bool, c: bool, d: bool, e: bool, g: bool,
                       a': bool, b': bool, c': bool, d': bool, e': bool, g': bool)
    requires Flags(a, b, c, d, e, g) == Flags(a', b', c', d', e', g')
    ensures a == a' && b == b' && c == c' && d == d' && e == e' && g == g'
  {
    FlagsDecode(a, b, c, d, e, g);
    FlagsDecode(a', b', c', d', e', g');
  }

  /**
   * Greenhouse_Check_Alarms' flag set: strict comparisons against the configured
   * limits, and bit 0 of sensor_error for the sensor fault.
   */
  function AlarmFlags(temp: u8, humi: u8, light: u8, sensorError: u8, cfg: Config.SystemConfig): u8
  {
    Flags(temp > Config.GetU8(cfg, Config.TEMP_HIGH_ALARM), temp < Config.GetU8(cfg, Config.TEMP_LOW_ALARM),
          humi > Config.GetU8(cfg, Config.HUMI_HIGH_ALARM), humi < Config.GetU8(cfg, Config.HUMI_LOW_ALARM),
          light < Config.GetU8(cfg, Config.LIGHT_LOW_ALARM), sensorError % 2 == 1)
  }

  /** The beep for a flag set, by the fixed priority of Greenhouse_Check_Alarms. */
  function BeepFor(f: u8): int
  {
    if Has(f, ALARM_SENSOR_ERROR) then Beep.ALARM_SENSOR_ERROR
    else if Has(f, ALARM_HIGH_TEMP) then Beep.ALARM_HIGH_TEMP
    else if Has(f, ALARM_LOW_TEMP) then Beep.ALARM_LOW_TEMP
    else if Has(f, ALARM_LOW_HUMI) then Beep.ALARM_LOW_HUMI
    else if Has(f, ALARM_HIGH_HUMI) then Beep.ALARM_HIGH_HUMI
    else if Has(f, ALARM_LOW_LIGHT) then Beep.ALARM_LOW_LIGHT
    else Beep.ALARM_NONE
  }

  /**
   * The beep sounds for the highest-priority raised condition: sensor error, then high
   * temperature, low temperature, low humidity, high humidity, low light; a non-empty
   * flag set always selects a beep.
   */
  lemma BeepPriority(a: bool, b: bool, c: bool, d: bool, e: bool, g: bool)
    ensures BeepFor(Flags(a, b, c, d, e, g)) ==
      if g then Beep.ALARM_SENSOR_ERROR
      else if a then Beep.ALARM_HIGH_TEMP
      else if b then Beep.ALARM_LOW_TEMP
      else if d then Beep.ALARM_LOW_HUMI
      else if c then Beep.ALARM_HIGH_HUMI
      else if e then Beep.ALARM_LOW_LIGHT
      else Beep.ALARM_NONE
    ensures Flags(a, b, c, d, e, g) != ALARM_NONE ==> BeepFor(Flags(a, b, c, d, e, g)) != Beep.ALARM_NONE
  {
    FlagsDecode(a, b, c, d, e, g);
  }

  /** Whenever some alarm condition holds, Greenhouse_Check_Alarms selects a beep for it. */
  lemma AlarmBeeps(temp: u8, humi: u8, light: u8, sensorError: u8, cfg: Config.SystemConfig)
    ensures var f := AlarmFlags(temp, humi, light, sensorError, cfg);
      f != ALARM_NONE ==> BeepFor(f) != Beep.ALARM_NONE
  {
    BeepPriority(temp > Config.GetU8(cfg, Config.TEMP_HIGH_ALARM), temp < Config.GetU8(cfg, Config.TEMP_LOW_ALARM),
                 humi > Config.GetU8(cfg, Config.HUMI_HIGH_ALARM), humi < Config.GetU8(cfg, Config.HUMI_LOW_ALARM),
                 light < Config.GetU8(cfg, Config.LIGHT_LOW_ALARM), sensorError % 2 == 1);
  }

  /** The alarm conditions as flags: a reading past a limit raises its bit and nothing else does. */
  lemma AlarmFlagsMeaning(temp: u8, humi: u8, light: u8, sensorError: u8, cfg: Config.SystemConfig)
    ensures var f := AlarmFlags(temp, humi, light, sensorError, cfg);
      (Has(f, ALARM_HIGH_TEMP) <==> temp > Config.GetU8(cfg, Config.TEMP_HIGH_ALARM))
      && (Has(f, ALARM_LOW_TEMP) <==> temp < Config.GetU8(cfg, Config.TEMP_LOW_ALARM))
      && (Has(f, ALARM_HIGH_HUMI) <==> humi > Config.GetU8(cfg, Config.HUMI_HIGH_ALARM))
      && (Has(f, ALARM_LOW_HUMI) <==> humi < Config.GetU8(cfg, Config.HUMI_LOW_ALARM))
      && (Has(f, ALARM_LOW_LIGHT) <==> light < Config.GetU8(cfg, Config.LIGHT_LOW_ALARM))
      && (Has(f, ALARM_SENSOR_ERROR) <==> sensorError % 2 == 1)
  {
    FlagsDecode(temp > Config.GetU8(cfg, Config.TEMP_HIGH_ALARM), temp < Config.GetU8(cfg, Config.TEMP_LOW_ALARM),
                humi > Config.GetU8(cfg, Config.HUMI_HIGH_ALARM), humi < Config.GetU8(cfg, Config.HUMI_LOW_ALARM),
                light < Config.GetU8(cfg, Config.LIGHT_LOW_ALARM), sensorError % 2 == 1);
  }

  /*
   * Hysteresis channels.
   */

  /**
   * One channel of Greenhouse_Auto_Control: the switch-on condition turns an OFF device
   * ON, the switch-off condition turns an ON device OFF, otherwise the state is kept.
   */
  function Hysteresis(turnOn: bool, turnOff: bool, status: u8): u8
  {
    if turnOn then (if status == DEVICE_OFF then DEVICE_ON else status)
    else if turnOff then (if status == DEVICE_ON then DEVICE_OFF else status)
    else status
  }

  /** The fan's conditions: on at or above the threshold, off below threshold − hysteresis (in int). */
  predicate FanOn(temp: u8, thr: u8) { temp >= thr }
  predicate FanOff(temp: u8, thr: u8, hyst: u8) { temp < thr - hyst }

  /** The pump's: on at or below the threshold, off above threshold + hysteresis. */
  predicate PumpOn(humi: u8, thr: u8) { humi <= thr }
  predicate PumpOff(humi: u8, thr: u8, hyst: u8) { humi > thr + hyst }

  /** The supplemental light's: on below the threshold, off above threshold + hysteresis. */
  predicate LightOn(light: u8, thr: u8) { light < thr }
  predicate LightOff(light: u8, thr: u8, hyst: u8) { light > thr + hyst }

  /** A device state is ON or OFF. */
  predicate OnOff(s: u8) { s == DEVICE_OFF || s == DEVICE_ON }

  /**
   * The fan is ON after a step exactly when the temperature reaches the threshold, or
   * it was ON and the temperature has not fallen below threshold − hysteresis; with a
   * hysteresis above the threshold it is never switched off.
   */
  lemma FanHysteresis(temp: u8, thr: u8, hyst: u8, status: u8)
    requires OnOff(status)
    ensures var r := Hysteresis(FanOn(temp, thr), FanOff(temp, thr, hyst), status);
      OnOff(r) && (r == DEVICE_ON <==> temp >= thr || (status == DEVICE_ON && temp >= thr - hyst))
    ensures hyst > thr && status == DEVICE_ON ==>
      Hysteresis(FanOn(temp, thr), FanOff(temp, thr, hyst), status) == DEVICE_ON
  {
  }

  /**
   * The pump is ON after a step exactly when the humidity is at most the threshold, or
   * it was ON and the humidity is at most threshold + hysteresis.
   */
  lemma PumpHysteresis(humi: u8, thr: u8, hyst: u8, status: u8)
    requires OnOff(status)
    ensures var r := Hysteresis(PumpOn(humi, thr), PumpOff(humi, thr, hyst), status);
      OnOff(r) && (r == DEVICE_ON <==> humi <= thr || (status == DEVICE_ON && humi <= thr + hyst))
  {
  }

  /**
   * The light is ON after a step exactly when the light level is below the threshold,
   * or it was ON and the level is at most threshold + hysteresis.
   */
  lemma LightHysteresis(light: u8, thr: u8, hyst: u8, status: u8)
    requires OnOff(status)
    ensures var r := Hysteresis(LightOn(light, thr), LightOff(light, thr, hyst), status);
      OnOff(r) && (r == DEVICE_ON <==> light < thr || (status == DEVICE_ON && light <= thr + hyst))
  {
  }

  /** A device that is neither OFF nor ON is never switched by a channel. */
  lemma HysteresisKeepsOther(turnOn: bool, turnOff: bool, status: u8)
    requires !OnOff(status)
    ensures Hysteresis(turnOn, turnOff, status) == status
  {
  }

  /*
   * Fan speed.
   */

  /** The speed tier for a temperature: 70/50/35 from 40/35/30 °C, `floor` below. */
  function FanTier(temp: u8, floor: u8): u8
  {
    if temp >= 40 then 70 else if temp >= 35 then 50 else if temp >= 30 then 35 else floor
  }

  /** What Greenhouse_Auto_Control does to the fan's PWM in one step. */
  datatype FanAction =
    | Keep                 // the PWM is not touched
    | Drive(speed: u8)     // the PWM is rewritten to speed unless it already reads back speed
    | Stop                 // Fan_Set_Speed(0)

  function FanCommand(temp: u8, thr: u8, hyst: u8, status: u8): FanAction
  {
    if FanOn(temp, thr) then Drive(FanTier(temp, 25))
    else if FanOff(temp, thr, hyst) then (if status == DEVICE_ON then Stop else Keep)
    else if status == DEVICE_ON then Drive(FanTier(temp, 20))
    else Keep
  }

  /**
   * The fan's speed target: the tier with a floor of 25 at or above the threshold, the
   * tier with a floor of 20 in the band while running, a stop when it switches off and
   * nothing otherwise; a target never exceeds 70 and never falls as the temperature rises
   * within the same branch.
   */
  lemma FanTargets(temp: u8, thr: u8, hyst: u8, status: u8)
    ensures var a := FanCommand(temp, thr, hyst, status);
      (temp >= thr ==> a == Drive(FanTier(temp, 25)))
      && (temp < thr - hyst && status == DEVICE_ON ==> a == Stop)
      && (thr - hyst <= temp < thr && status == DEVICE_ON ==> a == Drive(FanTier(temp, 20)))
      && (status != DEVICE_ON && temp < thr ==> a == Keep)
      && (a.Drive? ==> 20 <= a.speed <= 70)
      && (a == Stop <==> Hysteresis(FanOn(temp, thr), FanOff(temp, thr, hyst), status) != status && status == DEVICE_ON)
  {
  }

  lemma FanTierMonotone(t1: u8, t2: u8, floor: u8)
    requires t1 <= t2 && floor <= 35
    ensures FanTier(t1, floor) <= FanTier(t2, floor)
  {
  }

  /*
   * Log requests.
   */

  /** A DataLogger_Write* call made by the controller, with its arguments. */
  datatype Request =
    | SensorWrite(temp: u8, humi: u8, light: u8, fan: u8, pump: u8, lightDev: u8, mode: u8, alarms: u8)
    | OperationWrite(op: u8, oldVal: u8, newVal: u8, trigger: u8)
    | AlarmWrite(alarmType: u8, level: u8, triggerVal: u8, threshold: u8)

  /** The record an automatic edge logs (trigger 0): none without a change. */
  function Edge(opOn: u8, opOff: u8, before: u8, after: u8): seq<Request>
  {
    if before == after then []
    else if after == DEVICE_ON then [OperationWrite(opOn, DEVICE_OFF, DEVICE_ON, 0)]
    else [OperationWrite(opOff, DEVICE_ON, DEVICE_OFF, 0)]
  }

  /** An automatic step logs one record per actual edge and none otherwise, with the true old and new states. */
  lemma EdgeLogsChange(opOn: u8, opOff: u8, turnOn: bool, turnOff: bool, status: u8)
    ensures var r := Hysteresis(turnOn, turnOff, status); var e := Edge(opOn, opOff, status, r);
      |e| == (if r != status then 1 else 0)
      && (r != status ==> e[0].OperationWrite? && e[0].oldVal == status && e[0].newVal == r && e[0].trigger == 0)
  {
  }

  /*
   * Sensor bookkeeping.
   */

  /** sensor_error with bit 0 set (`|= 0x01`) or cleared (`&= ~0x01`). */
  function WithBit0(x: u8, on: bool): (r: u8)
    ensures (r % 2 == 1) == on && r / 2 == x / 2
  {
    x - x % 2 + (if on then 1 else 0)
  }

  /** log_counter++ and the test against 5: the new counter and whether a sensor record is due. */
  function SensorTick(counter: u16): (r: (u16, bool))
  {
    var c := Wrap16(counter + 1);
    if c >= 5 then (0, true) else (c, false)
  }

  /** Counting calls from 0, a sensor record is written on every fifth call. */
  lemma EveryFifthSample(n: nat)
    ensures var r := SensorTick((n % 5) as u16);
      r.0 == (n + 1) % 5 && (r.1 <==> (n + 1) % 5 == 0)
  {
  }
}
