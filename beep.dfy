/**
 * The alarm buzzer of beep.c: BEEP_Set_Alarm records an alarm type and its start time,
 * BEEP_Task drives the buzzer pin from the type and the milliseconds elapsed since.
 */
module Beep {
  import opened Ints

  /** AlarmType_t. */
  const ALARM_NONE := 0
  const ALARM_HIGH_TEMP := 1
  const ALARM_LOW_TEMP := 2
  const ALARM_HIGH_HUMI := 3
  const ALARM_LOW_HUMI := 4
  const ALARM_LOW_LIGHT := 5
  const ALARM_SENSOR_ERROR := 6

  /** system_time_ms - beep_timer in u32 arithmetic. */
  function Elapsed(now: u32, start: u32): (e: u32)
    ensures now >= start ==> e == now - start
  {
    Wrap32(now as int - start as int)
  }

  /** The elapsed time survives a wrap of the millisecond clock. */
  lemma ElapsedAcrossWrap(start: u32, d: int)
    requires 0 <= d < 0x1_0000_0000
    ensures Elapsed(Wrap32(start + d), start) == d
  {
    var now := Wrap32(start + d);
    if start + d >= 0x1_0000_0000 {
      assert now == start + d - 0x1_0000_0000;
    }
  }

  /** The pattern of BEEP_Task: whether the buzzer is on for an alarm type and an elapsed time. */
  function BeepOn(alarm: int, e: u32): bool
  {
    if alarm == ALARM_HIGH_TEMP then e % 400 < 100 || (e % 400 > 200 && e % 400 < 300)
    else if alarm == ALARM_LOW_TEMP then e % 1000 < 500
    else if alarm == ALARM_HIGH_HUMI then e % 1500 < 700
    else if alarm == ALARM_LOW_HUMI then e % 200 < 100
    else if alarm == ALARM_LOW_LIGHT then e % 800 < 200
    else alarm == ALARM_SENSOR_ERROR
  }

  /** The repetition period of each blinking pattern, in milliseconds. */
  function Period(alarm: int): (p: int)
    requires ALARM_HIGH_TEMP <= alarm <= ALARM_LOW_LIGHT
    ensures 200 <= p <= 1500
  {
    if alarm == ALARM_HIGH_TEMP then 400
    else if alarm == ALARM_LOW_TEMP then 1000
    else if alarm == ALARM_HIGH_HUMI then 1500
    else if alarm == ALARM_LOW_HUMI then 200
    else 800
  }

  /** No alarm and an unknown type keep the buzzer off; a sensor error keeps it on. */
  lemma SteadyTypes(alarm: int, e: u32)
    ensures (alarm == ALARM_NONE || alarm > ALARM_SENSOR_ERROR || alarm < 0) ==> !BeepOn(alarm, e)
    ensures alarm == ALARM_SENSOR_ERROR ==> BeepOn(alarm, e)
  {
  }

  /** Each blinking pattern repeats with its period. */
  lemma Periodic(alarm: int, e: u32)
    requires ALARM_HIGH_TEMP <= alarm <= ALARM_LOW_LIGHT && e as int + Period(alarm) < 0x1_0000_0000
    ensures BeepOn(alarm, (e as int + Period(alarm)) as u32) == BeepOn(alarm, e)
  {
    ModAddPeriod(e as int, Period(alarm));
  }

  /** Every alarm type starts with the buzzer on, and every blinking pattern also has an off phase. */
  lemma StartsOnThenPauses(alarm: int)
    requires ALARM_HIGH_TEMP <= alarm <= ALARM_SENSOR_ERROR
    ensures BeepOn(alarm, 0)
    ensures alarm != ALARM_SENSOR_ERROR ==> !BeepOn(alarm, (Period(alarm) - 1) as u32)
  {
  }

  /** The high-temperature pattern: two beeps of about 100 ms, separated and followed by pauses. */
  lemma HighTempDoubleBeep()
    ensures !BeepOn(ALARM_HIGH_TEMP, 100) && !BeepOn(ALARM_HIGH_TEMP, 200) && BeepOn(ALARM_HIGH_TEMP, 201)
  {
  }

  /** current_alarm, beep_timer and the buzzer pin. */
  class Buzzer {
    var current: int
    var timer: u32
    var pin: bool

    constructor ()
      ensures current == ALARM_NONE && timer == 0 && !pin
    {
      current := ALARM_NONE;
      timer := 0;
      pin := false;
    }

    /** BEEP_Set_Alarm at time now: stores the type; the start time only for a real alarm. */
    method SetAlarm(alarm: int, now: u32)
      modifies this`current, this`timer
      ensures current == alarm
      ensures timer == if alarm != ALARM_NONE then now else old(timer)
    {
      current := alarm;
      if alarm != ALARM_NONE {
        timer := now;
      }
    }

    /** BEEP_Task at time now: sets the pin and changes nothing else. */
    method Task(now: u32)
      modifies this`pin
      ensures pin == BeepOn(current, Elapsed(now, timer))
    {
      if current == ALARM_NONE {
        pin := false;
        return;
      }
      var e := Wrap32(now as int - timer as int);
      if current == ALARM_HIGH_TEMP {
        pin := e % 400 < 100 || (e % 400 > 200 && e % 400 < 300);
      } else if current == ALARM_LOW_TEMP {
        pin := e % 1000 < 500;
      } else if current == ALARM_HIGH_HUMI {
        pin := e % 1500 < 700;
      } else if current == ALARM_LOW_HUMI {
        pin := e % 200 < 100;
      } else if current == ALARM_LOW_LIGHT {
        pin := e % 800 < 200;
      } else if current == ALARM_SENSOR_ERROR {
        pin := true;
      } else {
        pin := false;
      }
    }
  }
}
