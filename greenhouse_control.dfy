/**
 * greenhouse_control.c: the global greenhouse_status and the routines that update it.
 * The controller owns the LED/fan driver, the buzzer and the RGB matrix; the log
 * records it writes are kept, in order, as requests; the configuration (system_config)
 * and the millisecond clock (system_time_ms) are parameters.
 */
module Greenhouse {
  import opened Ints
  import Config
  import DataLogger
  import Dht11
  import Lsens
  import Led
  import FanPwm
  import Beep
  import Key
  import Usart3
  import Bluetooth
  import Ws2812
  import Ws2812Color
  import opened GreenhouseLogic
  import opened Wrappers

  /** The fan speed after a long press of KEY0: ten points more, back to 0 past 100. */
  function LongPressSpeed(speed: u8): u8
  {
    var s := Wrap8(speed + 10);
    if s > 100 then 0 else s
  }

  /** From 0, repeated long presses step the fan through 0, 10, ..., 100 and back to 0. */
  lemma LongPressCycles(k: nat)
    requires k <= 10
    ensures LongPressSpeed((10 * k) as u8) == (10 * (k + 1)) % 110
  {
  }

  /** From any speed set through Fan_Set_Speed (at most 100) a long press stays within 0..100. */
  lemma LongPressBounded(speed: u8)
    requires speed <= 100
    ensures LongPressSpeed(speed) <= 100
    ensures LongPressSpeed(speed) == if speed <= 90 then speed + 10 else 0
  {
  }

  /** The display mode an RGB_* command selects, if any. */
  function ModeFor(cmd: Bluetooth.Command): Option<int>
  {
    match cmd
    case RgbTemp => Some(Ws2812.MODE_TEMP_DISPLAY)
    case RgbHumidity => Some(Ws2812.MODE_HUMIDITY_DISPLAY)
    case RgbLight => Some(Ws2812.MODE_LIGHT_DISPLAY)
    case RgbStatus => Some(Ws2812.MODE_STATUS_DISPLAY)
    case RgbOff => Some(Ws2812.MODE_OFF)
    case RgbRainbow | RgbBreathing | RgbFlow => Some(Ws2812.MODE_ANIMATION)
    case RgbHeart | RgbSmiley | RgbCheck | RgbCross | RgbRobot | RgbManualFace => Some(Ws2812.MODE_PATTERN)
    case RgbRed | RgbGreen | RgbBlue | RgbWhite | RgbYellow | RgbPurple | RgbCyan => Some(Ws2812.MODE_SOLID_COLOR)
    case _ => None
  }

  /** The colour a solid-colour command paints, if it is one. */
  function SolidColor(cmd: Bluetooth.Command): Option<u32>
  {
    match cmd
    case RgbRed => Some(Ws2812Color.COLOR_RED)
    case RgbGreen => Some(Ws2812Color.COLOR_GREEN)
    case RgbBlue => Some(Ws2812Color.COLOR_BLUE)
    case RgbWhite => Some(Ws2812Color.COLOR_WHITE)
    case RgbYellow => Some(Ws2812Color.COLOR_YELLOW)
    case RgbPurple => Some(Ws2812Color.COLOR_PURPLE)
    case RgbCyan => Some(Ws2812Color.COLOR_CYAN)
    case _ => None
  }

  /** The commands that only print, or only talk to the HC-05 module: no modelled state changes. */
  predicate Informational(cmd: Bluetooth.Command)
  {
    cmd.Status? || cmd.Stats? || cmd.Trend? || cmd.SensorStatus? || cmd.Help? || cmd.Unknown?
    || cmd.BtName? || cmd.BtVer? || cmd.BtAddr? || cmd.BtPin? || cmd.BtBaud? || cmd.BtRole?
    || cmd.BtClass? || cmd.BtTest? || cmd.BtReset? || cmd.BtDiag?
  }

  /** The commands that switch the mode or a device. */
  predicate DeviceCommand(cmd: Bluetooth.Command)
  {
    cmd.Auto? || cmd.Manual? || cmd.FanOn? || cmd.FanOff? || cmd.PumpOn? || cmd.PumpOff? || cmd.LightOn? || cmd.LightOff?
  }

  /** The commands that drive the RGB matrix. */
  predicate DisplayCommand(cmd: Bluetooth.Command)
  {
    ModeFor(cmd).Some? || cmd.RgbBright?
  }

  /** Every command is of exactly one kind: mode or device, display, or informational. */
  lemma CommandKinds(cmd: Bluetooth.Command)
    ensures DeviceCommand(cmd) || DisplayCommand(cmd) || Informational(cmd)
    ensures !(DeviceCommand(cmd) && DisplayCommand(cmd)) && !(DeviceCommand(cmd) && Informational(cmd))
    ensures !(DisplayCommand(cmd) && Informational(cmd))
  {
  }

  /** What switching to AUTO from MANUAL does to a run status: an ON record is marked OFF, nothing else. */
  function Halted(r: RunStatus): (h: RunStatus)
    ensures h.status == DEVICE_OFF || h.status == r.status
    ensures h.(status := r.status) == r
  {
    if r.status == DEVICE_ON then r.(status := DEVICE_OFF) else r
  }

  /** greenhouse_status, the statics of the control routines, and the drivers they call. */
  class Controller {
    var temperature: u8
    var humidity: u8
    var light: u8
    var workMode: u8
    var fanStatus: u8
    var pumpStatus: u8
    var lightStatus: u8
    var alarmFlags: u8
    var sensorError: u8
    var fanRun: RunStatus
    var pumpRun: RunStatus
    var lightRun: RunStatus
    var systemRunTime: u32
    /** The statics log_counter, last_valid_temp and last_valid_humi of Greenhouse_Update_Sensors. */
    var logCounter: u16
    var lastValidTemp: u8
    var lastValidHumi: u8
    /** The DataLogger_Write* calls made so far, oldest first. */
    var requests: seq<Request>
    const leds: Led.Leds
    const buzzer: Beep.Buzzer
    const rgb: Ws2812.Matrix

    ghost predicate Valid()
      reads leds, rgb
    {
      leds.Valid() && rgb.Valid()
    }

    /** Greenhouse_Init's state: automatic mode, every device off, no alarm, no run time. */
    constructor (pwm: FanPwm.Pwm)
      ensures Valid() && leds.pwm == pwm
      ensures workMode == MODE_AUTO && fanStatus == DEVICE_OFF && pumpStatus == DEVICE_OFF
      ensures lightStatus == DEVICE_OFF && alarmFlags == ALARM_NONE && sensorError == 0
      ensures fanRun == IDLE && pumpRun == IDLE && lightRun == IDLE && systemRunTime == 0
      ensures temperature == 0 && humidity == 0 && light == 0
      ensures logCounter == 0 && lastValidTemp == 0 && lastValidHumi == 0 && requests == []
    {
      leds := new Led.Leds(pwm);
      buzzer := new Beep.Buzzer();
      rgb := new Ws2812.Matrix();
      temperature, humidity, light := 0, 0, 0;
      workMode := MODE_AUTO;
      fanStatus, pumpStatus, lightStatus := DEVICE_OFF, DEVICE_OFF, DEVICE_OFF;
      alarmFlags, sensorError := ALARM_NONE, 0;
      fanRun, pumpRun, lightRun := IDLE, IDLE, IDLE;
      systemRunTime := 0;
      logCounter, lastValidTemp, lastValidHumi := 0, 0, 0;
      requests := [];
    }

    /** The sensor record DataLogger_WriteSensorData is given. */
    function SensorRecord(): Request
      reads this
    {
      SensorWrite(temperature, humidity, light, fanStatus, pumpStatus, lightStatus, workMode, alarmFlags)
    }

    /**
     * The DHT11 half of Greenhouse_Update_Sensors, for the sensor's presence answer and
     * frame and the values the uninitialised locals temp and humi happen to hold, with
     * DHT11_Read_Data taken as written: an absent sensor is a failed read, which keeps the
     * last valid reading and raises bit 0 of sensor_error; a present one is a success,
     * which clears the bit and stores the frame's integer bytes when the checksum matches
     * and the untouched locals when it does not. The readings are the last valid ones.
     */
    twostate predicate SensorsRead(present: bool, frame: seq<u8>, localTemp: u8, localHumi: u8)
      requires |frame| == Dht11.FRAME_LEN
      reads this
    {
      && (!present ==>
        lastValidTemp == old(lastValidTemp) && lastValidHumi == old(lastValidHumi)
        && sensorError == WithBit0(old(sensorError), true))
      && (present && Dht11.ChecksumOk(frame) ==>
        lastValidTemp == frame[2] && lastValidHumi == frame[0]
        && sensorError == WithBit0(old(sensorError), false))
      && (present && !Dht11.ChecksumOk(frame) ==>
        lastValidTemp == localTemp && lastValidHumi == localHumi
        && sensorError == WithBit0(old(sensorError), false))
      && temperature == lastValidTemp && humidity == lastValidHumi
    }

    /**
     * Greenhouse_Update_Sensors, for the DHT11's answer, the uninitialised locals and the
     * ten light samples: the DHT11 read of SensorsRead, the light percentage, and a sensor
     * record logged on every fifth call.
     */
    method UpdateSensors(present: bool, frame: seq<u8>, localTemp: u8, localHumi: u8, samples: seq<u16>)
      requires |frame| == Dht11.FRAME_LEN && |samples| == Lsens.SAMPLES
      modifies this`temperature, this`humidity, this`light, this`sensorError
      modifies this`lastValidTemp, this`lastValidHumi, this`logCounter, this`requests
      ensures SensorsRead(present, frame, localTemp, localHumi)
      ensures light == Lsens.LightOf(samples)
      ensures logCounter == SensorTick(old(logCounter)).0
      ensures requests == old(requests) + (if SensorTick(old(logCounter)).1 then [SensorRecord()] else [])
    {
      var r := Dht11.ReadDataAsWritten(present, frame, localTemp, localHumi);
      if r.status == 0 {
        temperature, humidity := r.temp, r.humi;
        sensorError := WithBit0(sensorError, false);
        lastValidTemp, lastValidHumi := r.temp, r.humi;
      } else {
        sensorError := WithBit0(sensorError, true);
        temperature, humidity := lastValidTemp, lastValidHumi;
      }
      light := Lsens.GetVal(samples);
      var tick := SensorTick(logCounter);
      logCounter := tick.0;
      if tick.1 {
        requests := requests + [SensorRecord()];
      }
    }

    /**
     * The fan output after the fan step of Greenhouse_Auto_Control, for the status before it:
     * kept, stopped, or driven to a target, which is written only when the PWM read back
     * differs from it.
     */
    twostate predicate FanSpeedFollows(thr: u8, hyst: u8)
      reads this, leds, leds.pwm
    {
      match FanCommand(temperature, thr, hyst, old(fanStatus))
      case Keep => leds.fanSpeed == old(leds.fanSpeed) && leds.pwm.compare == old(leds.pwm.compare)
      case Stop => leds.fanSpeed == 0 && (leds.pwm.period > 0 ==> leds.pwm.GetPercent() == 0)
      case Drive(s) =>
        (old(leds.pwm.GetPercent()) == s ==>
          leds.fanSpeed == old(leds.fanSpeed) && leds.pwm.compare == old(leds.pwm.compare))
        && (old(leds.pwm.GetPercent()) != s ==> leds.fanSpeed == s)
        && (leds.pwm.period > 0 && leds.pwm.period % 100 == 0 ==> leds.pwm.GetPercent() == s)
    }

    /** The fan part of Greenhouse_Auto_Control for a threshold and hysteresis. */
    method FanAuto(thr: u8, hyst: u8)
      modifies this`fanStatus, this`requests, leds`fanSpeed, leds.pwm`compare
      ensures fanStatus == Hysteresis(FanOn(temperature, thr), FanOff(temperature, thr, hyst), old(fanStatus))
      ensures requests == old(requests) + Edge(DataLogger.OP_FAN_ON, DataLogger.OP_FAN_OFF, old(fanStatus), fanStatus)
      ensures FanSpeedFollows(thr, hyst)
    {
      var before := fanStatus;
      FanTargets(temperature, thr, hyst, before);
      if FanOn(temperature, thr) {
        var target := FanTier(temperature, 25);
        if fanStatus == DEVICE_OFF {
          fanStatus := DEVICE_ON;
          requests := requests + [OperationWrite(DataLogger.OP_FAN_ON, DEVICE_OFF, DEVICE_ON, 0)];
        }
        DriveFan(target);
      } else if FanOff(temperature, thr, hyst) {
        if fanStatus == DEVICE_ON {
          fanStatus := DEVICE_OFF;
          leds.FanSetSpeed(0);
          requests := requests + [OperationWrite(DataLogger.OP_FAN_OFF, DEVICE_ON, DEVICE_OFF, 0)];
        }
      } else if fanStatus == DEVICE_ON {
        DriveFan(FanTier(temperature, 20));
      }
    }

    /** Reads the PWM back and rewrites the speed only when it differs from the target. */
    method DriveFan(target: u8)
      requires target <= 100
      modifies leds`fanSpeed, leds.pwm`compare
      ensures old(leds.pwm.GetPercent()) == target ==>
        leds.fanSpeed == old(leds.fanSpeed) && leds.pwm.compare == old(leds.pwm.compare)
      ensures old(leds.pwm.GetPercent()) != target ==> leds.fanSpeed == target
      ensures leds.pwm.period > 0 && leds.pwm.period % 100 == 0 ==> leds.pwm.GetPercent() == target
    {
      var current := leds.pwm.GetPercent();
      if current != target {
        leds.FanSetSpeed(target);
      }
    }

    /** The pump part of Greenhouse_Auto_Control for a threshold and hysteresis. */
    method PumpAuto(thr: u8, hyst: u8)
      requires Valid()
      modifies this`pumpStatus, this`requests, leds`pumpActive, leds`port
      ensures Valid()
      ensures pumpStatus == Hysteresis(PumpOn(humidity, thr), PumpOff(humidity, thr, hyst), old(pumpStatus))
      ensures requests == old(requests) + Edge(DataLogger.OP_PUMP_ON, DataLogger.OP_PUMP_OFF, old(pumpStatus), pumpStatus)
      ensures pumpStatus == old(pumpStatus) ==> leds.pumpActive == old(leds.pumpActive) && leds.port == old(leds.port)
      ensures pumpStatus != old(pumpStatus) ==> leds.pumpActive == (if pumpStatus == DEVICE_ON then 1 else 0)
    {
      if PumpOn(humidity, thr) {
        if pumpStatus == DEVICE_OFF {
          pumpStatus := DEVICE_ON;
          leds.PumpSet(1);
          requests := requests + [OperationWrite(DataLogger.OP_PUMP_ON, DEVICE_OFF, DEVICE_ON, 0)];
        }
      } else if PumpOff(humidity, thr, hyst) {
        if pumpStatus == DEVICE_ON {
          pumpStatus := DEVICE_OFF;
          leds.PumpSet(0);
          requests := requests + [OperationWrite(DataLogger.OP_PUMP_OFF, DEVICE_ON, DEVICE_OFF, 0)];
        }
      }
    }

    /** The supplemental-light part of Greenhouse_Auto_Control for a threshold and hysteresis. */
    method LightAuto(thr: u8, hyst: u8)
      modifies this`lightStatus, this`requests
      ensures lightStatus == Hysteresis(LightOn(light, thr), LightOff(light, thr, hyst), old(lightStatus))
      ensures requests == old(requests) + Edge(DataLogger.OP_LIGHT_ON, DataLogger.OP_LIGHT_OFF, old(lightStatus), lightStatus)
    {
      if LightOn(light, thr) {
        if lightStatus == DEVICE_OFF {
          lightStatus := DEVICE_ON;
          requests := requests + [OperationWrite(DataLogger.OP_LIGHT_ON, DEVICE_OFF, DEVICE_ON, 0)];
        }
      } else if LightOff(light, thr, hyst) {
        if lightStatus == DEVICE_ON {
          lightStatus := DEVICE_OFF;
          requests := requests + [OperationWrite(DataLogger.OP_LIGHT_OFF, DEVICE_ON, DEVICE_OFF, 0)];
        }
      }
    }

    /**
     * Greenhouse_Auto_Control: nothing in manual mode; otherwise the three hysteresis
     * steps with the configured thresholds, each edge logged in turn.
     */
    method AutoControl(cfg: Config.SystemConfig)
      requires Valid()
      modifies this`fanStatus, this`pumpStatus, this`lightStatus, this`requests
      modifies leds`fanSpeed, leds.pwm`compare, leds`pumpActive, leds`port
      ensures Valid()
      ensures workMode != MODE_AUTO ==>
        fanStatus == old(fanStatus) && pumpStatus == old(pumpStatus) && lightStatus == old(lightStatus)
        && requests == old(requests) && leds.fanSpeed == old(leds.fanSpeed)
        && leds.pwm.compare == old(leds.pwm.compare) && leds.pumpActive == old(leds.pumpActive)
      ensures workMode == MODE_AUTO ==>
        fanStatus == Hysteresis(FanOn(temperature, Config.GetU8(cfg, Config.TEMP_FAN_ON)),
          FanOff(temperature, Config.GetU8(cfg, Config.TEMP_FAN_ON), cfg.tempHysteresis), old(fanStatus))
        && pumpStatus == Hysteresis(PumpOn(humidity, Config.GetU8(cfg, Config.HUMI_PUMP_ON)),
          PumpOff(humidity, Config.GetU8(cfg, Config.HUMI_PUMP_ON), cfg.humiHysteresis), old(pumpStatus))
        && lightStatus == Hysteresis(LightOn(light, Config.GetU8(cfg, Config.LIGHT_AUTO_ON)),
          LightOff(light, Config.GetU8(cfg, Config.LIGHT_AUTO_ON), cfg.lightHysteresis), old(lightStatus))
        && requests == old(requests)
          + Edge(DataLogger.OP_FAN_ON, DataLogger.OP_FAN_OFF, old(fanStatus), fanStatus)
          + Edge(DataLogger.OP_PUMP_ON, DataLogger.OP_PUMP_OFF, old(pumpStatus), pumpStatus)
          + Edge(DataLogger.OP_LIGHT_ON, DataLogger.OP_LIGHT_OFF, old(lightStatus), lightStatus)
        && FanSpeedFollows(Config.GetU8(cfg, Config.TEMP_FAN_ON), cfg.tempHysteresis)
    {
      if workMode != MODE_AUTO {
        return;
      }
      FanAuto(Config.GetU8(cfg, Config.TEMP_FAN_ON), cfg.tempHysteresis);
      PumpAuto(Config.GetU8(cfg, Config.HUMI_PUMP_ON), cfg.humiHysteresis);
      LightAuto(Config.GetU8(cfg, Config.LIGHT_AUTO_ON), cfg.lightHysteresis);
    }

    /**
     * Greenhouse_Check_Alarms at time now: the flags are recomputed from the readings;
     * only a change acts. No flag stops the buzzer and the alarm LEDs; otherwise the
     * buzzer takes the highest-priority condition, the LEDs flash and an alarm record is
     * logged with the flags and the three readings.
     */
    method CheckAlarms(cfg: Config.SystemConfig, now: u32)
      requires Valid()
      modifies this`alarmFlags, this`requests, buzzer`current, buzzer`timer, leds`alarmActive, leds`port
      ensures Valid()
      ensures alarmFlags == AlarmFlags(temperature, humidity, light, sensorError, cfg)
      ensures alarmFlags == old(alarmFlags) ==>
        requests == old(requests) && buzzer.current == old(buzzer.current)
        && buzzer.timer == old(buzzer.timer) && leds.alarmActive == old(leds.alarmActive)
        && leds.port == old(leds.port)
      ensures alarmFlags != old(alarmFlags) && alarmFlags == ALARM_NONE ==>
        requests == old(requests) && buzzer.current == Beep.ALARM_NONE
        && leds.alarmActive == 0 && leds.port == Led.ALL_OFF
      ensures alarmFlags != old(alarmFlags) && alarmFlags != ALARM_NONE ==>
        requests == old(requests) + [AlarmWrite(alarmFlags, temperature, humidity, light)]
        && leds.alarmActive == 1
        && buzzer.current == (if BeepFor(alarmFlags) == Beep.ALARM_NONE then old(buzzer.current) else BeepFor(alarmFlags))
        && (BeepFor(alarmFlags) != Beep.ALARM_NONE ==> buzzer.timer == now)
    {
      var f := AlarmFlags(temperature, humidity, light, sensorError, cfg);
      if alarmFlags == f {
        return;
      }
      alarmFlags := f;
      if f == ALARM_NONE {
        buzzer.SetAlarm(Beep.ALARM_NONE, now);
        leds.AlarmSet(0);
      } else {
        if Has(f, ALARM_SENSOR_ERROR) {
          buzzer.SetAlarm(Beep.ALARM_SENSOR_ERROR, now);
        } else if Has(f, ALARM_HIGH_TEMP) {
          buzzer.SetAlarm(Beep.ALARM_HIGH_TEMP, now);
        } else if Has(f, ALARM_LOW_TEMP) {
          buzzer.SetAlarm(Beep.ALARM_LOW_TEMP, now);
        } else if Has(f, ALARM_LOW_HUMI) {
          buzzer.SetAlarm(Beep.ALARM_LOW_HUMI, now);
        } else if Has(f, ALARM_HIGH_HUMI) {
          buzzer.SetAlarm(Beep.ALARM_HIGH_HUMI, now);
        } else if Has(f, ALARM_LOW_LIGHT) {
          buzzer.SetAlarm(Beep.ALARM_LOW_LIGHT, now);
        }
        leds.AlarmSet(1);
        requests := requests + [AlarmWrite(f, temperature, humidity, light)];
      }
    }

    /** The log record of a manual switch (trigger 1). */
    static function ManualRecord(opOn: u8, opOff: u8, before: u8, action: u8): Request
    {
      OperationWrite(if action != 0 then opOn else opOff, before, action, 1)
    }

    /** Greenhouse_Manual_Control's fan case: 45 % when switched on, 0 when off. */
    method ManualFan(action: u8)
      modifies this`fanStatus, this`requests, leds`fanSpeed, leds.pwm`compare
      ensures fanStatus == action
      ensures leds.fanSpeed == if action != 0 then 45 else 0
      ensures leds.pwm.period > 0 && leds.pwm.period % 100 == 0 ==> leds.pwm.GetPercent() == leds.fanSpeed
      ensures requests == old(requests) + [ManualRecord(DataLogger.OP_FAN_ON, DataLogger.OP_FAN_OFF, old(fanStatus), action)]
    {
      var before := fanStatus;
      fanStatus := action;
      if action != 0 {
        leds.FanSetSpeed(45);
      } else {
        leds.FanSetSpeed(0);
      }
      requests := requests + [ManualRecord(DataLogger.OP_FAN_ON, DataLogger.OP_FAN_OFF, before, action)];
    }

    /** Greenhouse_Manual_Control's pump case: the marquee follows, and the run status is updated. */
    method ManualPump(action: u8, now: u32)
      requires Valid()
      modifies this`pumpStatus, this`pumpRun, this`requests, leds`pumpActive, leds`port
      ensures Valid() && pumpStatus == action && leds.pumpActive == action
      ensures pumpRun == UpdateDeviceStatus(old(pumpRun), action, now)
      ensures requests == old(requests) + [ManualRecord(DataLogger.OP_PUMP_ON, DataLogger.OP_PUMP_OFF, old(pumpStatus), action)]
    {
      var before := pumpStatus;
      pumpStatus := action;
      leds.PumpSet(action);
      requests := requests + [ManualRecord(DataLogger.OP_PUMP_ON, DataLogger.OP_PUMP_OFF, before, action)];
      pumpRun := UpdateDeviceStatus(pumpRun, action, now);
    }

    /** Greenhouse_Manual_Control's light case. */
    method ManualLight(action: u8)
      modifies this`lightStatus, this`requests
      ensures lightStatus == action
      ensures requests == old(requests) + [ManualRecord(DataLogger.OP_LIGHT_ON, DataLogger.OP_LIGHT_OFF, old(lightStatus), action)]
    {
      var before := lightStatus;
      lightStatus := action;
      requests := requests + [ManualRecord(DataLogger.OP_LIGHT_ON, DataLogger.OP_LIGHT_OFF, before, action)];
    }

    /**
     * Greenhouse_Manual_Control: only in manual mode, device 1 (fan), 2 (pump) or 3
     * (light) takes the action, which is logged with trigger 1; only the pump's run
     * status is updated. Anything else changes nothing.
     */
    method ManualControl(device: u8, action: u8, now: u32)
      requires Valid()
      modifies this`fanStatus, this`pumpStatus, this`lightStatus, this`pumpRun, this`requests
      modifies leds`fanSpeed, leds.pwm`compare, leds`pumpActive, leds`port
      ensures Valid()
      ensures workMode != MODE_MANUAL || device !in {1, 2, 3} ==>
        fanStatus == old(fanStatus) && pumpStatus == old(pumpStatus) && lightStatus == old(lightStatus)
        && pumpRun == old(pumpRun) && requests == old(requests)
        && leds.fanSpeed == old(leds.fanSpeed) && leds.pumpActive == old(leds.pumpActive)
      ensures workMode == MODE_MANUAL && device == 1 ==>
        fanStatus == action && leds.fanSpeed == (if action != 0 then 45 else 0)
        && pumpStatus == old(pumpStatus) && lightStatus == old(lightStatus) && pumpRun == old(pumpRun)
        && requests == old(requests) + [ManualRecord(DataLogger.OP_FAN_ON, DataLogger.OP_FAN_OFF, old(fanStatus), action)]
      ensures workMode == MODE_MANUAL && device == 2 ==>
        pumpStatus == action && leds.pumpActive == action && pumpRun == UpdateDeviceStatus(old(pumpRun), action, now)
        && fanStatus == old(fanStatus) && lightStatus == old(lightStatus)
        && requests == old(requests) + [ManualRecord(DataLogger.OP_PUMP_ON, DataLogger.OP_PUMP_OFF, old(pumpStatus), action)]
      ensures workMode == MODE_MANUAL && device == 3 ==>
        lightStatus == action && fanStatus == old(fanStatus) && pumpStatus == old(pumpStatus) && pumpRun == old(pumpRun)
        && requests == old(requests) + [ManualRecord(DataLogger.OP_LIGHT_ON, DataLogger.OP_LIGHT_OFF, old(lightStatus), action)]
    {
      if workMode != MODE_MANUAL {
        return;
      }
      if device == 1 {
        ManualFan(action);
      } else if device == 2 {
        ManualPump(action, now);
      } else if device == 3 {
        ManualLight(action);
      }
    }

    /** Greenhouse_Pump_Control: a new state switches the marquee and updates the pump's run status. */
    method PumpControl(state: u8, now: u32)
      requires Valid()
      modifies this`pumpStatus, this`pumpRun, leds`pumpActive, leds`port
      ensures Valid() && pumpStatus == state
      ensures pumpRun == if old(pumpStatus) != state then UpdateDeviceStatus(old(pumpRun), state, now) else old(pumpRun)
      ensures leds.pumpActive == if old(pumpStatus) != state then (if state == DEVICE_ON then 1 else 0) else old(leds.pumpActive)
    {
      if pumpStatus != state {
        pumpStatus := state;
        if state == DEVICE_ON {
          leds.PumpSet(1);
        } else {
          leds.PumpSet(0);
        }
        pumpRun := UpdateDeviceStatus(pumpRun, state, now);
      }
    }

    /**
     * Greenhouse_Process_Key for a key code and the two later readings of KEY0 (after
     * the 10 ms debounce and after the further 80 ms): KEY_UP toggles the mode and logs
     * it; in manual mode a short KEY0 press toggles the fan, a long one steps a running
     * fan's speed, and KEY1 and KEY2 toggle the pump and the light.
     */
    method ProcessKey(key: int, heldAfterDebounce: bool, heldLong: bool, now: u32)
      requires Valid()
      modifies this`workMode, this`fanStatus, this`pumpStatus, this`lightStatus, this`pumpRun, this`requests
      modifies leds`fanSpeed, leds.pwm`compare, leds`pumpActive, leds`port
      ensures Valid()
      ensures key == Key.KEY_UP_PRESS ==>
        workMode == Not(old(workMode)) && fanStatus == old(fanStatus) && pumpStatus == old(pumpStatus)
        && lightStatus == old(lightStatus)
        && requests == old(requests) + [ManualRecord(DataLogger.OP_MODE_MANUAL, DataLogger.OP_MODE_AUTO, old(workMode), workMode)]
      ensures key != Key.KEY_UP_PRESS ==> workMode == old(workMode)
      ensures key == Key.KEY0_PRESS && workMode == MODE_MANUAL && heldAfterDebounce && !heldLong ==>
        fanStatus == Not(old(fanStatus))
        && requests == old(requests) + [ManualRecord(DataLogger.OP_FAN_ON, DataLogger.OP_FAN_OFF, old(fanStatus), fanStatus)]
      ensures key == Key.KEY0_PRESS && workMode == MODE_MANUAL && heldAfterDebounce && heldLong ==>
        fanStatus == old(fanStatus) && requests == old(requests)
        && leds.fanSpeed == (if fanStatus == DEVICE_ON then LongPressSpeed(old(leds.fanSpeed)) else old(leds.fanSpeed))
      ensures key == Key.KEY1_PRESS && workMode == MODE_MANUAL ==>
        pumpStatus == Not(old(pumpStatus)) && pumpRun == UpdateDeviceStatus(old(pumpRun), pumpStatus, now)
        && requests == old(requests) + [ManualRecord(DataLogger.OP_PUMP_ON, DataLogger.OP_PUMP_OFF, old(pumpStatus), pumpStatus)]
      ensures key == Key.KEY2_PRESS && workMode == MODE_MANUAL ==>
        lightStatus == Not(old(lightStatus))
        && requests == old(requests) + [ManualRecord(DataLogger.OP_LIGHT_ON, DataLogger.OP_LIGHT_OFF, old(lightStatus), lightStatus)]
      ensures (key != Key.KEY_UP_PRESS
        && (workMode != MODE_MANUAL || key !in {Key.KEY0_PRESS, Key.KEY1_PRESS, Key.KEY2_PRESS}
          || (key == Key.KEY0_PRESS && !heldAfterDebounce))) ==>
        fanStatus == old(fanStatus) && pumpStatus == old(pumpStatus) && lightStatus == old(lightStatus)
        && requests == old(requests) && leds.fanSpeed == old(leds.fanSpeed)
    {
      if key == Key.KEY_UP_PRESS {
        var before := workMode;
        workMode := Not(workMode);
        requests := requests + [ManualRecord(DataLogger.OP_MODE_MANUAL, DataLogger.OP_MODE_AUTO, before, workMode)];
      } else if key == Key.KEY0_PRESS {
        if workMode == MODE_MANUAL && heldAfterDebounce {
          if heldLong {
            if fanStatus == DEVICE_ON {
              leds.FanSetSpeed(LongPressSpeed(leds.FanGetSpeed()));
            }
          } else {
            ManualControl(1, Not(fanStatus), now);
          }
        }
      } else if key == Key.KEY1_PRESS {
        if workMode == MODE_MANUAL {
          ManualControl(2, Not(pumpStatus), now);
        }
      } else if key == Key.KEY2_PRESS {
        if workMode == MODE_MANUAL {
          ManualControl(3, Not(lightStatus), now);
        }
      }
    }

    /** RGB_Show_Manual_Status_Face with the device states and Fan_Get_Speed(). */
    method ShowFace()
      requires Valid()
      modifies rgb.buf, rgb`strip
      ensures Valid() && rgb.strip == rgb.Frame()
      ensures rgb.Shows(Ws2812.FacePicture(fanStatus != 0, pumpStatus != 0, lightStatus != 0, leds.fanSpeed))
    {
      rgb.ShowManualFace(fanStatus, pumpStatus, lightStatus, leds.FanGetSpeed());
    }

    /**
     * FAN_ON / FAN_OFF: in manual mode the PWM goes straight to 100 % or 0 %, the fan
     * status and its run status follow and the face is redrawn; otherwise nothing.
     */
    method BtFan(on: bool, now: u32)
      requires Valid()
      modifies this`fanStatus, this`fanRun, leds.pwm`compare, rgb.buf, rgb`strip
      ensures Valid()
      ensures workMode != MODE_MANUAL ==>
        fanStatus == old(fanStatus) && fanRun == old(fanRun) && leds.pwm.compare == old(leds.pwm.compare)
        && rgb.strip == old(rgb.strip) && unchanged(rgb.buf)
      ensures workMode == MODE_MANUAL ==>
        fanStatus == (if on then DEVICE_ON else DEVICE_OFF)
        && fanRun == UpdateDeviceStatus(old(fanRun), fanStatus, now)
        && (leds.pwm.period > 0 ==> leds.pwm.compare == FanPwm.CompareFor(leds.pwm.period, if on then 100 else 0))
        && rgb.Shows(Ws2812.FacePicture(on, pumpStatus != 0, lightStatus != 0, leds.fanSpeed))
        && rgb.strip == rgb.Frame()
    {
      if workMode != MODE_MANUAL {
        return;
      }
      leds.pwm.SetPercent(if on then 100 else 0);
      fanStatus := if on then DEVICE_ON else DEVICE_OFF;
      fanRun := UpdateDeviceStatus(fanRun, fanStatus, now);
      ShowFace();
    }

    /** PUMP_ON / PUMP_OFF: in manual mode the marquee, the pump status and its run status follow. */
    method BtPump(on: bool, now: u32)
      requires Valid()
      modifies this`pumpStatus, this`pumpRun, leds`pumpActive, leds`port, rgb.buf, rgb`strip
      ensures Valid()
      ensures workMode != MODE_MANUAL ==>
        pumpStatus == old(pumpStatus) && pumpRun == old(pumpRun) && leds.pumpActive == old(leds.pumpActive)
        && leds.port == old(leds.port) && rgb.strip == old(rgb.strip) && unchanged(rgb.buf)
      ensures workMode == MODE_MANUAL ==>
        pumpStatus == (if on then DEVICE_ON else DEVICE_OFF) && leds.pumpActive == pumpStatus
        && pumpRun == UpdateDeviceStatus(old(pumpRun), pumpStatus, now)
        && rgb.Shows(Ws2812.FacePicture(fanStatus != 0, on, lightStatus != 0, leds.fanSpeed))
        && rgb.strip == rgb.Frame()
    {
      if workMode != MODE_MANUAL {
        return;
      }
      leds.PumpSet(if on then 1 else 0);
      pumpStatus := if on then DEVICE_ON else DEVICE_OFF;
      pumpRun := UpdateDeviceStatus(pumpRun, pumpStatus, now);
      ShowFace();
    }

    /** LIGHT_ON / LIGHT_OFF: in manual mode the light status and its run status follow. */
    method BtLight(on: bool, now: u32)
      requires Valid()
      modifies this`lightStatus, this`lightRun, rgb.buf, rgb`strip
      ensures Valid()
      ensures workMode != MODE_MANUAL ==>
        lightStatus == old(lightStatus) && lightRun == old(lightRun)
        && rgb.strip == old(rgb.strip) && unchanged(rgb.buf)
      ensures workMode == MODE_MANUAL ==>
        lightStatus == (if on then DEVICE_ON else DEVICE_OFF)
        && lightRun == UpdateDeviceStatus(old(lightRun), lightStatus, now)
        && rgb.Shows(Ws2812.FacePicture(fanStatus != 0, pumpStatus != 0, on, leds.fanSpeed))
        && rgb.strip == rgb.Frame()
    {
      if workMode != MODE_MANUAL {
        return;
      }
      lightStatus := if on then DEVICE_ON else DEVICE_OFF;
      lightRun := UpdateDeviceStatus(lightRun, lightStatus, now);
      ShowFace();
    }

    /**
     * AUTO: leaving manual mode stops each device whose run status is ON (fan PWM to 0,
     * marquee off) and marks that run status OFF, without a time stamp, a switch count or
     * a change to fan_status and pump_status; then the mode becomes AUTO.
     */
    method BtAuto()
      requires Valid()
      modifies this`workMode, this`fanRun, this`pumpRun, this`lightRun, leds.pwm`compare, leds`pumpActive, leds`port
      ensures Valid() && workMode == MODE_AUTO
      ensures fanStatus == old(fanStatus) && pumpStatus == old(pumpStatus) && lightStatus == old(lightStatus)
      ensures old(workMode) != MODE_MANUAL ==>
        fanRun == old(fanRun) && pumpRun == old(pumpRun) && lightRun == old(lightRun)
        && leds.pwm.compare == old(leds.pwm.compare) && leds.pumpActive == old(leds.pumpActive)
      ensures old(workMode) == MODE_MANUAL ==>
        fanRun == Halted(old(fanRun)) && pumpRun == Halted(old(pumpRun)) && lightRun == Halted(old(lightRun))
        && (old(fanRun).status == DEVICE_ON && leds.pwm.period > 0 ==> leds.pwm.GetPercent() == 0)
        && (old(fanRun).status != DEVICE_ON ==> leds.pwm.compare == old(leds.pwm.compare))
        && leds.pumpActive == (if old(pumpRun).status == DEVICE_ON then 0 else old(leds.pumpActive))
    {
      if workMode == MODE_MANUAL {
        if fanRun.status == DEVICE_ON {
          leds.pwm.SetPercent(0);
          fanRun := fanRun.(status := DEVICE_OFF);
        }
        if pumpRun.status == DEVICE_ON {
          leds.PumpSet(0);
          pumpRun := pumpRun.(status := DEVICE_OFF);
        }
        if lightRun.status == DEVICE_ON {
          lightRun := lightRun.(status := DEVICE_OFF);
        }
      }
      workMode := MODE_AUTO;
    }

    /** The picture a display command shows: a bar of a reading, or the three device states. */
    function ReadingPicture(cmd: Bluetooth.Command): Ws2812.Picture
      reads this
    {
      match cmd
      case RgbTemp => Ws2812.TempPicture(temperature)
      case RgbHumidity => Ws2812.HumiPicture(humidity)
      case RgbLight => Ws2812.LightPicture(light)
      case _ => Ws2812.StatusPicture(fanStatus != 0, pumpStatus != 0, lightStatus != 0)
    }

    /** The display commands: the mode, then the picture of the current reading or device states. */
    method RgbDisplay(cmd: Bluetooth.Command)
      requires Valid() && (cmd.RgbTemp? || cmd.RgbHumidity? || cmd.RgbLight? || cmd.RgbStatus?)
      modifies rgb.buf, rgb`mode, rgb`strip
      ensures Valid() && Some(rgb.mode) == ModeFor(cmd)
      ensures rgb.Shows(ReadingPicture(cmd)) && rgb.strip == rgb.Frame()
    {
      var mode := ModeFor(cmd).value;
      rgb.SetDisplayMode(mode);
      match cmd {
        case RgbTemp => rgb.ShowTemperature(temperature);
        case RgbHumidity => rgb.ShowHumidity(humidity);
        case RgbLight => rgb.ShowLightLevel(light);
        case RgbStatus => rgb.ShowSystemStatus(fanStatus, pumpStatus, lightStatus);
      }
    }

    /** RGB_OFF: mode off and a dark strip; the frame buffer keeps its contents. */
    method RgbOff()
      requires Valid()
      modifies rgb`mode, rgb`strip
      ensures Valid() && rgb.mode == Ws2812.MODE_OFF
      ensures rgb.strip == seq(Ws2812.LED_COUNT, k => Ws2812Color.BLACK)
    {
      rgb.SetDisplayMode(Ws2812.MODE_OFF);
      rgb.LedClear();
    }

    /** The animation commands: animation mode, then the animation restarted (breathing in blue). */
    method RgbAnimation(cmd: Bluetooth.Command)
      requires Valid() && (cmd.RgbRainbow? || cmd.RgbBreathing? || cmd.RgbFlow?)
      modifies rgb`mode, rgb`strip, rgb`animType, rgb`animStep, rgb`animColor
      ensures Valid() && Some(rgb.mode) == ModeFor(cmd) && rgb.animStep == 0
      ensures rgb.animType == match cmd
        case RgbRainbow => Ws2812.ANIM_RAINBOW
        case RgbBreathing => Ws2812.ANIM_BREATHING
        case _ => Ws2812.ANIM_WATER_FLOW
      ensures rgb.animColor == if cmd.RgbBreathing? then Ws2812Color.COLOR_BLUE else old(rgb.animColor)
      ensures rgb.strip == old(rgb.strip)
    {
      rgb.SetDisplayMode(Ws2812.MODE_ANIMATION);
      if cmd.RgbRainbow? {
        rgb.StartAnimation(Ws2812.ANIM_RAINBOW, 0);
      } else if cmd.RgbBreathing? {
        rgb.StartAnimation(Ws2812.ANIM_BREATHING, Ws2812Color.COLOR_BLUE);
      } else {
        rgb.StartAnimation(Ws2812.ANIM_WATER_FLOW, 0);
      }
    }

    /** The pattern commands: pattern mode; RGB_MANUAL_FACE also draws the status face. */
    method RgbPattern(cmd: Bluetooth.Command)
      requires Valid() && ModeFor(cmd) == Some(Ws2812.MODE_PATTERN)
      modifies rgb.buf, rgb`mode, rgb`strip
      ensures Valid() && rgb.mode == Ws2812.MODE_PATTERN
      ensures cmd.RgbManualFace? ==>
        rgb.Shows(Ws2812.FacePicture(fanStatus != 0, pumpStatus != 0, lightStatus != 0, leds.fanSpeed))
        && rgb.strip == rgb.Frame()
    {
      rgb.SetDisplayMode(Ws2812.MODE_PATTERN);
      if cmd.RgbManualFace? {
        ShowFace();
      }
    }

    /** The colour commands: solid-colour mode and every pixel in the colour. */
    method RgbSolid(cmd: Bluetooth.Command)
      requires Valid() && SolidColor(cmd).Some?
      modifies rgb.buf, rgb`mode, rgb`strip
      ensures Valid() && rgb.mode == Ws2812.MODE_SOLID_COLOR
      ensures rgb.Shows(Ws2812.SolidPicture(SolidColor(cmd).value)) && rgb.strip == rgb.Frame()
    {
      rgb.SetDisplayMode(Ws2812.MODE_SOLID_COLOR);
      rgb.SetAllColor(SolidColor(cmd).value);
    }

    /** RGB_BRIGHT: (u8)atoi of the text after the keyword, applied only when at most 100. */
    method RgbBrightness(line: string)
      requires Valid() && Config.Contains(line, "RGB_BRIGHT")
      modifies rgb`brightness
      ensures Valid()
      ensures rgb.brightness == if Bluetooth.BrightnessArg(line) <= 100 then Bluetooth.BrightnessArg(line) else old(rgb.brightness)
    {
      var b := Bluetooth.BrightnessArg(line);
      if b <= 100 {
        rgb.SetBrightness(b);
      }
    }

    /**
     * What a mode or device branch of Greenhouse_Handle_Bluetooth leaves, against the state
     * before it. AUTO sets the mode and, when it leaves manual mode, halts the run status of
     * every running device and stops the fan PWM and the marquee of those that were on.
     * MANUAL only sets the mode. A switch acts only in manual mode: the status and run
     * status follow it, the fan PWM (100 % or 0 %) or the marquee follows, and the face is
     * redrawn. Whatever a command does not name keeps its value.
     */
    twostate predicate DeviceEffect(cmd: Bluetooth.Command, now: u32)
      requires Valid()
      reads this, leds, leds.pwm, rgb, rgb.buf
    {
      var manual := old(workMode) == MODE_MANUAL;
      var halt := cmd.Auto? && manual;
      var fan := (cmd.FanOn? || cmd.FanOff?) && manual;
      var pump := (cmd.PumpOn? || cmd.PumpOff?) && manual;
      var lamp := (cmd.LightOn? || cmd.LightOff?) && manual;
      && workMode == (if cmd.Auto? then MODE_AUTO else if cmd.Manual? then MODE_MANUAL else old(workMode))
      && fanStatus == (if fan then (if cmd.FanOn? then DEVICE_ON else DEVICE_OFF) else old(fanStatus))
      && pumpStatus == (if pump then (if cmd.PumpOn? then DEVICE_ON else DEVICE_OFF) else old(pumpStatus))
      && lightStatus == (if lamp then (if cmd.LightOn? then DEVICE_ON else DEVICE_OFF) else old(lightStatus))
      && fanRun == (if halt then Halted(old(fanRun)) else if fan then UpdateDeviceStatus(old(fanRun), fanStatus, now) else old(fanRun))
      && pumpRun == (if halt then Halted(old(pumpRun)) else if pump then UpdateDeviceStatus(old(pumpRun), pumpStatus, now) else old(pumpRun))
      && lightRun == (if halt then Halted(old(lightRun)) else if lamp then UpdateDeviceStatus(old(lightRun), lightStatus, now) else old(lightRun))
      && (halt && old(fanRun).status == DEVICE_ON && leds.pwm.period > 0 ==> leds.pwm.GetPercent() == 0)
      && (fan && leds.pwm.period > 0 ==> leds.pwm.compare == FanPwm.CompareFor(leds.pwm.period, if cmd.FanOn? then 100 else 0))
      && (!fan && !(halt && old(fanRun).status == DEVICE_ON) ==> leds.pwm.compare == old(leds.pwm.compare))
      && leds.pumpActive == (if pump then pumpStatus else if halt && old(pumpRun).status == DEVICE_ON then 0 else old(leds.pumpActive))
      && leds.fanSpeed == old(leds.fanSpeed)
      && (fan || pump || lamp ==>
        rgb.Shows(Ws2812.FacePicture(fanStatus != 0, pumpStatus != 0, lightStatus != 0, leds.fanSpeed))
        && rgb.strip == rgb.Frame())
      && (!(fan || pump || lamp) ==> rgb.strip == old(rgb.strip) && unchanged(rgb.buf))
    }

    /** The mode and device branches of Greenhouse_Handle_Bluetooth: AUTO, MANUAL and the device switches. */
    method DeviceDispatch(cmd: Bluetooth.Command, now: u32)
      requires Valid() && DeviceCommand(cmd)
      modifies this`workMode, this`fanStatus, this`pumpStatus, this`lightStatus, this`fanRun, this`pumpRun, this`lightRun
      modifies leds.pwm`compare, leds`pumpActive, leds`port, rgb.buf, rgb`strip
      ensures Valid() && DeviceEffect(cmd, now)
    {
      if cmd.Auto? {
        BtAuto();
      } else if cmd.Manual? {
        workMode := MODE_MANUAL;
      } else if cmd.FanOn? || cmd.FanOff? {
        BtFan(cmd.FanOn?, now);
      } else if cmd.PumpOn? || cmd.PumpOff? {
        BtPump(cmd.PumpOn?, now);
      } else {
        BtLight(cmd.LightOn?, now);
      }
    }

    /** The animation an RGB_* command starts, if any. */
    function AnimationFor(cmd: Bluetooth.Command): Option<int>
    {
      match cmd
      case RgbRainbow => Some(Ws2812.ANIM_RAINBOW)
      case RgbBreathing => Some(Ws2812.ANIM_BREATHING)
      case RgbFlow => Some(Ws2812.ANIM_WATER_FLOW)
      case _ => None
    }

    /**
     * What an RGB branch of Greenhouse_Handle_Bluetooth leaves, against the state before it.
     * The mode is the command's; a reading, the status squares, a solid colour or the manual
     * face is drawn and its frame sent; RGB_OFF darkens the strip; an animation command
     * restarts its animation (breathing in blue) without drawing; RGB_BRIGHT takes its
     * argument when at most 100 and changes nothing else. The animation state is kept by
     * every other command, and the brightness by every command but RGB_BRIGHT.
     */
    twostate predicate DisplayEffect(cmd: Bluetooth.Command, line: string)
      requires Valid()
      reads this, leds, rgb, rgb.buf
    {
      && rgb.mode == (if ModeFor(cmd).Some? then ModeFor(cmd).value else old(rgb.mode))
      && rgb.brightness == (if cmd.RgbBright? && Config.Contains(line, "RGB_BRIGHT") && Bluetooth.BrightnessArg(line) <= 100
        then Bluetooth.BrightnessArg(line) else old(rgb.brightness))
      && (AnimationFor(cmd).Some? ==>
        rgb.animType == AnimationFor(cmd).value && rgb.animStep == 0
        && rgb.animColor == (if cmd.RgbBreathing? then Ws2812Color.COLOR_BLUE else old(rgb.animColor)))
      && (AnimationFor(cmd).None? ==>
        rgb.animType == old(rgb.animType) && rgb.animStep == old(rgb.animStep) && rgb.animColor == old(rgb.animColor))
      && ((cmd.RgbTemp? || cmd.RgbHumidity? || cmd.RgbLight? || cmd.RgbStatus?) ==>
        rgb.Shows(ReadingPicture(cmd)) && rgb.strip == rgb.Frame())
      && (SolidColor(cmd).Some? ==> rgb.Shows(Ws2812.SolidPicture(SolidColor(cmd).value)) && rgb.strip == rgb.Frame())
      && (cmd.RgbManualFace? ==>
        rgb.Shows(Ws2812.FacePicture(fanStatus != 0, pumpStatus != 0, lightStatus != 0, leds.fanSpeed))
        && rgb.strip == rgb.Frame())
      && (cmd.RgbOff? ==> rgb.strip == seq(Ws2812.LED_COUNT, k => Ws2812Color.BLACK) && unchanged(rgb.buf))
      && (AnimationFor(cmd).Some? || cmd.RgbBright? ==> rgb.strip == old(rgb.strip) && unchanged(rgb.buf))
    }

    /** The RGB branches of Greenhouse_Handle_Bluetooth: display mode, picture, animation and brightness. */
    method DisplayDispatch(cmd: Bluetooth.Command, line: string)
      requires Valid() && DisplayCommand(cmd) && (cmd.RgbBright? ==> Config.Contains(line, "RGB_BRIGHT"))
      modifies rgb.buf, rgb`mode, rgb`strip, rgb`animType, rgb`animStep, rgb`animColor, rgb`brightness
      ensures Valid() && DisplayEffect(cmd, line)
    {
      if cmd.RgbTemp? || cmd.RgbHumidity? || cmd.RgbLight? || cmd.RgbStatus? {
        RgbDisplay(cmd);
      } else if cmd.RgbOff? {
        RgbOff();
      } else if AnimationFor(cmd).Some? {
        RgbAnimation(cmd);
      } else if ModeFor(cmd) == Some(Ws2812.MODE_PATTERN) {
        RgbPattern(cmd);
      } else if SolidColor(cmd).Some? {
        RgbSolid(cmd);
      } else {
        RgbBrightness(line);
      }
    }

    /** The mode, the device statuses, their run statuses and the outputs that follow them are as before. */
    twostate predicate DevicesKept()
      reads this, leds, leds.pwm
    {
      workMode == old(workMode) && fanStatus == old(fanStatus) && pumpStatus == old(pumpStatus)
      && lightStatus == old(lightStatus) && fanRun == old(fanRun) && pumpRun == old(pumpRun)
      && lightRun == old(lightRun) && leds.pwm.compare == old(leds.pwm.compare)
      && leds.pumpActive == old(leds.pumpActive) && leds.port == old(leds.port)
    }

    /** The display mode, the brightness and the animation state are as before. */
    twostate predicate DisplayKept()
      reads rgb
    {
      rgb.mode == old(rgb.mode) && rgb.brightness == old(rgb.brightness) && rgb.animType == old(rgb.animType)
      && rgb.animStep == old(rgb.animStep) && rgb.animColor == old(rgb.animColor)
    }

    /**
     * The keyword chain of Greenhouse_Handle_Bluetooth on a received line: the line is
     * dispatched on its first matching keyword in the firmware's order. In that order a
     * line containing RGB_STATUS only reports the status, and one containing
     * RGB_MANUAL_FACE (and neither STATUS nor AUTO) switches to manual mode.
     */
    method Dispatch(line: string, now: u32)
      requires Valid()
      modifies this`workMode, this`fanStatus, this`pumpStatus, this`lightStatus, this`fanRun, this`pumpRun, this`lightRun
      modifies leds.pwm`compare, leds`pumpActive, leds`port
      modifies rgb.buf, rgb`mode, rgb`strip, rgb`animType, rgb`animStep, rgb`animColor, rgb`brightness
      ensures Valid()
      ensures Bluetooth.Found(line, "STATUS") ==> DevicesKept() && DisplayKept()
      ensures (Bluetooth.Found(line, "RGB_MANUAL_FACE") && !Bluetooth.Found(line, "STATUS")
        && !Bluetooth.Found(line, "AUTO")) ==> workMode == MODE_MANUAL
      ensures var cmd := Bluetooth.Classify(line);
        (DeviceCommand(cmd) ==> DeviceEffect(cmd, now) && DisplayKept())
        && (DisplayCommand(cmd) ==> DisplayEffect(cmd, line) && DevicesKept())
        && (Informational(cmd) ==> DevicesKept() && DisplayKept() && rgb.strip == old(rgb.strip) && unchanged(rgb.buf))
    {
      var cmd := Bluetooth.Classify(line);
      Bluetooth.BrightnessHasKeyword(line);
      Bluetooth.ShadowedCommands(line);
      CommandKinds(cmd);
      if DeviceCommand(cmd) {
        DeviceDispatch(cmd, now);
      } else if DisplayCommand(cmd) {
        DisplayDispatch(cmd, line);
      }
    }

    /**
     * Greenhouse_Handle_Bluetooth for USART3_RX_STA and USART3_RX_BUF: nothing until a
     * line is complete; then the NUL is written at the count, the line up to it is
     * dispatched and the status word is cleared.
     */
    method HandleBluetooth(sta: u16, buf: seq<u8>, now: u32) returns (newSta: u16, newBuf: seq<u8>)
      requires Valid() && Usart3.Bounded(sta) && |buf| == Usart3.REC_LEN
      modifies this`workMode, this`fanStatus, this`pumpStatus, this`lightStatus, this`fanRun, this`pumpRun, this`lightRun
      modifies leds.pwm`compare, leds`pumpActive, leds`port
      modifies rgb.buf, rgb`mode, rgb`strip, rgb`animType, rgb`animStep, rgb`animColor, rgb`brightness
      ensures Valid()
      ensures !Usart3.Done(sta) ==>
        newSta == sta && newBuf == buf && DevicesKept() && DisplayKept()
        && rgb.strip == old(rgb.strip) && unchanged(rgb.buf)
      ensures Usart3.Done(sta) ==>
        newSta == 0 && newBuf == buf[Usart3.Count(sta) := 0]
        && Bluetooth.CString(newBuf) == Bluetooth.Line(sta, buf)
      ensures Usart3.Done(sta) ==> var line := Bluetooth.Line(sta, buf);
        (Bluetooth.Found(line, "STATUS") ==> DevicesKept() && DisplayKept())
        && ((Bluetooth.Found(line, "RGB_MANUAL_FACE") && !Bluetooth.Found(line, "STATUS")
          && !Bluetooth.Found(line, "AUTO")) ==> workMode == MODE_MANUAL)
      ensures Usart3.Done(sta) ==>
        var line := Bluetooth.Line(sta, buf);
        var cmd := Bluetooth.Classify(line);
        (DeviceCommand(cmd) ==> DeviceEffect(cmd, now) && DisplayKept())
        && (DisplayCommand(cmd) ==> DisplayEffect(cmd, line) && DevicesKept())
        && (Informational(cmd) ==> DevicesKept() && DisplayKept() && rgb.strip == old(rgb.strip) && unchanged(rgb.buf))
    {
      if !Usart3.Done(sta) {
        return sta, buf;
      }
      var n := Usart3.Count(sta);
      newBuf := buf[n := 0];
      Bluetooth.CStringStopsAtNul(buf, n);
      Dispatch(Bluetooth.CString(newBuf), now);
      newSta := 0;
    }

    /**
     * Greenhouse_Task, one 200 ms period: read the sensors, run the automatic control in
     * AUTO mode, recheck the alarms and count the period. The log receives, in this order,
     * the sensor record of every fifth period (with the fresh readings and the device
     * states and flags from before the control), the automatic edges, and the alarm record.
     */
    method Task(present: bool, frame: seq<u8>, localTemp: u8, localHumi: u8, samples: seq<u16>,
                cfg: Config.SystemConfig, now: u32)
      requires Valid() && |frame| == Dht11.FRAME_LEN && |samples| == Lsens.SAMPLES
      modifies this`temperature, this`humidity, this`light, this`sensorError
      modifies this`lastValidTemp, this`lastValidHumi, this`logCounter, this`requests
      modifies this`fanStatus, this`pumpStatus, this`lightStatus, this`alarmFlags, this`systemRunTime
      modifies leds`fanSpeed, leds.pwm`compare, leds`pumpActive, leds`port, leds`alarmActive
      modifies buzzer`current, buzzer`timer
      ensures systemRunTime == Wrap32(old(systemRunTime) + 1)
      ensures SensorsRead(present, frame, localTemp, localHumi) && light == Lsens.LightOf(samples)
      ensures logCounter == SensorTick(old(logCounter)).0
      ensures requests == old(requests)
        + (if SensorTick(old(logCounter)).1
           then [SensorWrite(temperature, humidity, light, old(fanStatus), old(pumpStatus), old(lightStatus), workMode, old(alarmFlags))]
           else [])
        + (if workMode == MODE_AUTO then
            Edge(DataLogger.OP_FAN_ON, DataLogger.OP_FAN_OFF, old(fanStatus), fanStatus)
            + Edge(DataLogger.OP_PUMP_ON, DataLogger.OP_PUMP_OFF, old(pumpStatus), pumpStatus)
            + Edge(DataLogger.OP_LIGHT_ON, DataLogger.OP_LIGHT_OFF, old(lightStatus), lightStatus)
           else [])
        + (if alarmFlags != old(alarmFlags) && alarmFlags != ALARM_NONE
           then [AlarmWrite(alarmFlags, temperature, humidity, light)] else [])
      ensures workMode != MODE_AUTO ==> leds.fanSpeed == old(leds.fanSpeed) && leds.pwm.compare == old(leds.pwm.compare)
      ensures workMode == MODE_AUTO ==> FanSpeedFollows(Config.GetU8(cfg, Config.TEMP_FAN_ON), cfg.tempHysteresis)
      ensures Valid()
      ensures alarmFlags == AlarmFlags(temperature, humidity, light, sensorError, cfg)
      ensures alarmFlags != old(alarmFlags) && alarmFlags != ALARM_NONE ==>
        buzzer.current == BeepFor(alarmFlags) != Beep.ALARM_NONE && leds.alarmActive == 1
      ensures alarmFlags != old(alarmFlags) && alarmFlags == ALARM_NONE ==>
        buzzer.current == Beep.ALARM_NONE && leds.alarmActive == 0
      ensures workMode != MODE_AUTO ==>
        fanStatus == old(fanStatus) && pumpStatus == old(pumpStatus) && lightStatus == old(lightStatus)
      ensures workMode == MODE_AUTO ==>
        fanStatus == Hysteresis(FanOn(temperature, Config.GetU8(cfg, Config.TEMP_FAN_ON)),
          FanOff(temperature, Config.GetU8(cfg, Config.TEMP_FAN_ON), cfg.tempHysteresis), old(fanStatus))
        && pumpStatus == Hysteresis(PumpOn(humidity, Config.GetU8(cfg, Config.HUMI_PUMP_ON)),
          PumpOff(humidity, Config.GetU8(cfg, Config.HUMI_PUMP_ON), cfg.humiHysteresis), old(pumpStatus))
        && lightStatus == Hysteresis(LightOn(light, Config.GetU8(cfg, Config.LIGHT_AUTO_ON)),
          LightOff(light, Config.GetU8(cfg, Config.LIGHT_AUTO_ON), cfg.lightHysteresis), old(lightStatus))
    {
      UpdateSensors(present, frame, localTemp, localHumi, samples);
      Control(cfg, now);
      systemRunTime := Wrap32(systemRunTime + 1);
    }

    /**
     * The control half of Greenhouse_Task on the fresh readings: the automatic control in
     * AUTO mode, then the alarm check; a new alarm always selects a beep.
     */
    method Control(cfg: Config.SystemConfig, now: u32)
      requires Valid()
      modifies this`requests, this`fanStatus, this`pumpStatus, this`lightStatus, this`alarmFlags
      modifies leds`fanSpeed, leds.pwm`compare, leds`pumpActive, leds`port, leds`alarmActive
      modifies buzzer`current, buzzer`timer
      ensures Valid()
      ensures alarmFlags == AlarmFlags(temperature, humidity, light, sensorError, cfg)
      ensures alarmFlags != old(alarmFlags) && alarmFlags != ALARM_NONE ==>
        buzzer.current == BeepFor(alarmFlags) != Beep.ALARM_NONE && leds.alarmActive == 1
      ensures alarmFlags != old(alarmFlags) && alarmFlags == ALARM_NONE ==>
        buzzer.current == Beep.ALARM_NONE && leds.alarmActive == 0
      ensures requests == old(requests)
        + (if workMode == MODE_AUTO then
            Edge(DataLogger.OP_FAN_ON, DataLogger.OP_FAN_OFF, old(fanStatus), fanStatus)
            + Edge(DataLogger.OP_PUMP_ON, DataLogger.OP_PUMP_OFF, old(pumpStatus), pumpStatus)
            + Edge(DataLogger.OP_LIGHT_ON, DataLogger.OP_LIGHT_OFF, old(lightStatus), lightStatus)
           else [])
        + (if alarmFlags != old(alarmFlags) && alarmFlags != ALARM_NONE
           then [AlarmWrite(alarmFlags, temperature, humidity, light)] else [])
      ensures workMode != MODE_AUTO ==> leds.fanSpeed == old(leds.fanSpeed) && leds.pwm.compare == old(leds.pwm.compare)
      ensures workMode == MODE_AUTO ==> FanSpeedFollows(Config.GetU8(cfg, Config.TEMP_FAN_ON), cfg.tempHysteresis)
      ensures workMode != MODE_AUTO ==>
        fanStatus == old(fanStatus) && pumpStatus == old(pumpStatus) && lightStatus == old(lightStatus)
      ensures workMode == MODE_AUTO ==>
        fanStatus == Hysteresis(FanOn(temperature, Config.GetU8(cfg, Config.TEMP_FAN_ON)),
          FanOff(temperature, Config.GetU8(cfg, Config.TEMP_FAN_ON), cfg.tempHysteresis), old(fanStatus))
        && pumpStatus == Hysteresis(PumpOn(humidity, Config.GetU8(cfg, Config.HUMI_PUMP_ON)),
          PumpOff(humidity, Config.GetU8(cfg, Config.HUMI_PUMP_ON), cfg.humiHysteresis), old(pumpStatus))
        && lightStatus == Hysteresis(LightOn(light, Config.GetU8(cfg, Config.LIGHT_AUTO_ON)),
          LightOff(light, Config.GetU8(cfg, Config.LIGHT_AUTO_ON), cfg.lightHysteresis), old(lightStatus))
    {
      if workMode == MODE_AUTO {
        AutoControl(cfg);
      }
      CheckAlarms(cfg, now);
      AlarmBeeps(temperature, humidity, light, sensorError, cfg);
    }
  }
}
