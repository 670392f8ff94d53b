/**
 * The marquee of led.c: eight LEDs on PC0..PC7 (lit by a low level) that flash all
 * together for an alarm or walk one lit LED along for the pump, advanced on every
 * 40th call of LED_Marquee_Update; and the fan speed that led.c keeps and forwards
 * to the PWM channel.
 */
module Led {
  import opened Ints
  import FanPwm

  /** Calls of LED_Marquee_Update per animation step. */
  const STEP_CALLS := 40

  /** All marquee LEDs off (every pin high). */
  const ALL_OFF: u16 := 0xFFFF
  /** All marquee LEDs on (every pin low). */
  const ALL_ON: u16 := 0x0000

  /** The bit of a marquee pin lies within the low byte. */
  lemma Pow2Pin(s: nat)
    requires s < 8
    ensures 1 <= Pow2(s) <= 128
  {
    Pow2Widths();
    Pow2Add(s, 8 - s);
    assert Pow2(8 - s) >= 2 by {
      assert Pow2(8 - s) == 2 * Pow2(7 - s);
    }
  }

  /** Whether pin PCi of a port value is low, that is, whether LED i is lit. */
  predicate Lit(port: u16, i: int)
    requires 0 <= i < 8
  {
    (port / Pow2(i)) % 2 == 0
  }

  /** The pump pattern (u16)~(1 << s): every pin high except pin s. */
  function PumpPattern(s: int): (port: u16)
    requires 0 <= s < 8
  {
    Pow2Pin(s);
    0xFFFF - Pow2(s)
  }

  /** The facts about 2^i, 2^(16-i) and 2^s that the pin arithmetic needs. */
  lemma PinSpan(i: nat)
    requires i < 8
    ensures Pow2(i) * Pow2(16 - i) == 65536 && Pow2(16 - i) % 2 == 0
  {
    Pow2Widths();
    Pow2Add(i, 16 - i);
    assert Pow2(16 - i) == 2 * Pow2(15 - i);
  }

  /** Every pin of ALL_OFF is high. */
  lemma AllOffDark(i: int)
    requires 0 <= i < 8
    ensures !Lit(ALL_OFF, i)
  {
    PinSpan(i);
    var p, m := Pow2(i), Pow2(16 - i);
    DivExact(ALL_OFF, p, m - 1, p - 1);
  }

  /** The pin of the lit LED: (0xFFFF - p) / p is even when p·m == 2^16 with m even. */
  lemma OwnPinLow(p: int, m: int)
    requires 1 <= p && p * m == 65536 && m % 2 == 0
    ensures ((0xFFFF - p) / p) % 2 == 0
  {
    DivExact(0xFFFF - p, p, m - 2, p - 1);
  }

  /** A higher pin stays high: (0xFFFF - q) / p is odd for q < p. */
  lemma HigherPinHigh(p: int, q: int, m: int)
    requires 1 <= q < p && p * m == 65536 && m % 2 == 0
    ensures ((0xFFFF - q) / p) % 2 == 1
  {
    DivExact(0xFFFF - q, p, m - 1, p - 1 - q);
  }

  /** A lower pin stays high: (0xFFFF - p·k) / p is odd for an even k. */
  lemma LowerPinHigh(p: int, k: int, m: int)
    requires 1 <= p && p * m == 65536 && m % 2 == 0 && k % 2 == 0
    ensures ((0xFFFF - p * k) / p) % 2 == 1
  {
    var j := m - k - 1;
    assert j % 2 == 1;
    assert p * j == p * m - p * k - p by {
      assert p * j == p * m + p * (-k - 1);
      assert p * (-k - 1) == -(p * k) - p;
    }
    DivExact(0xFFFF - p * k, p, j, p - 1);
  }

  /** The pump pattern lights exactly one LED of the eight, the one at the step. */
  lemma PumpLightsOne(s: int, i: int)
    requires 0 <= s < 8 && 0 <= i < 8
    ensures Lit(PumpPattern(s), i) <==> i == s
  {
    var p, q, m := Pow2(i), Pow2(s), Pow2(16 - i);
    Pow2Pin(s);
    PinSpan(i);
    if i == s {
      OwnPinLow(p, m);
    } else if i > s {
      Pow2Increasing(s, i);
      HigherPinHigh(p, q, m);
    } else {
      Pow2Multiple(i, s);
      LowerPinHigh(p, Pow2(s - i), m);
    }
  }

  /** The alarm pattern: none or all of the eight LEDs lit. */
  lemma AlarmLightsAllOrNone(i: int)
    requires 0 <= i < 8
    ensures Lit(ALL_ON, i) && !Lit(ALL_OFF, i)
  {
    AllOffDark(i);
  }

  /**
   * marquee_counter++ (in u8) and the test against 40: the new counter and whether this
   * call advances the animation.
   */
  function Tick(counter: u8): (r: (u8, bool))
  {
    var c := Wrap8(counter + 1);
    if c < STEP_CALLS then (c, false) else (0, true)
  }

  /** Counting calls from 0, the n-th call advances the animation exactly when 40 divides n. */
  lemma EveryFortiethCall(n: nat)
    ensures var r := Tick((n % STEP_CALLS) as u8);
      r.0 == (n + 1) % STEP_CALLS && (r.1 <==> (n + 1) % STEP_CALLS == 0)
  {
  }

  /**
   * One animation step from the flags and marquee_state: the port written and the new
   * state. The alarm takes priority over the pump.
   */
  function Step(alarm: bool, pump: bool, s: u8): (r: (u16, u8))
    requires s < 8
    ensures r.1 < 8
  {
    if alarm then
      var s' := (s + 1) % 2;
      (if s' != 0 then ALL_ON else ALL_OFF, s')
    else if pump then (PumpPattern(s), (s + 1) % 8)
    else (ALL_OFF, 0)
  }

  /** With the alarm active, two consecutive steps light all LEDs in one and none in the other. */
  lemma AlarmFlashes(pump: bool, s: u8)
    requires s < 8
    ensures var a := Step(true, pump, s); var b := Step(true, pump, a.1);
      {a.0, b.0} == {ALL_ON, ALL_OFF}
  {
  }

  /** The state after k pump steps (and no alarm) from state s. */
  function PumpState(s: u8, k: nat): (r: u8)
    requires s < 8
    ensures r < 8
  {
    if k == 0 then s else Step(false, true, PumpState(s, k - 1)).1
  }

  /**
   * With only the pump active, the k-th step from state 0 lights LED k mod 8 alone:
   * the lit LED walks PC0, PC1, ..., PC7 and starts over.
   */
  lemma PumpWalks(k: nat, i: int)
    requires 0 <= i < 8
    ensures PumpState(0, k) == k % 8
    ensures Lit(Step(false, true, PumpState(0, k)).0, i) <==> i == k % 8
  {
    PumpStateCounts(k);
    PumpLightsOne(k % 8, i);
  }

  lemma {:induction false} PumpStateCounts(k: nat)
    ensures PumpState(0, k) == k % 8
  {
    if k > 0 {
      PumpStateCounts(k - 1);
      SuccessorMod(k - 1, 8);
    }
  }

  /** With neither alarm nor pump, a step turns every LED off and resets the state. */
  lemma IdleClears(s: u8, i: int)
    requires s < 8 && 0 <= i < 8
    ensures Step(false, false, s) == (ALL_OFF, 0) && !Lit(ALL_OFF, i)
  {
    AllOffDark(i);
  }

  /** The statics of led.c, the marquee port, and the PWM channel the fan speed is forwarded to. */
  class Leds {
    var alarmActive: u8
    var pumpActive: u8
    var state: u8
    var counter: u8
    var port: u16
    var fanSpeed: u8
    const pwm: FanPwm.Pwm

    /** marquee_state < 8 always holds: every assignment to it is reduced mod 2 or 8. */
    ghost predicate Valid()
      reads this
    {
      state < 8
    }

    constructor (pwm: FanPwm.Pwm)
      ensures Valid() && this.pwm == pwm
      ensures alarmActive == 0 && pumpActive == 0 && state == 0 && counter == 0 && fanSpeed == 0
      ensures port == ALL_OFF
    {
      this.pwm := pwm;
      alarmActive, pumpActive, state, counter := 0, 0, 0, 0;
      port := ALL_OFF;
      fanSpeed := 0;
    }

    /** LED_Alarm_Set: records the flag; stopping turns every LED off at once. */
    method AlarmSet(on: u8)
      requires Valid()
      modifies this`alarmActive, this`port
      ensures Valid() && alarmActive == on
      ensures port == if on == 0 then ALL_OFF else old(port)
    {
      alarmActive := on;
      if on == 0 {
        port := ALL_OFF;
      }
    }

    /** LED_Pump_Set: records the flag; stopping turns every LED off at once. */
    method PumpSet(on: u8)
      requires Valid()
      modifies this`pumpActive, this`port
      ensures Valid() && pumpActive == on
      ensures port == if on == 0 then ALL_OFF else old(port)
    {
      pumpActive := on;
      if on == 0 {
        port := ALL_OFF;
      }
    }

    /** LED_Marquee_Update: counts the call; on every 40th, writes the next step to the port. */
    method MarqueeUpdate()
      requires Valid()
      modifies this`counter, this`state, this`port
      ensures Valid()
      ensures counter == Tick(old(counter)).0
      ensures !Tick(old(counter)).1 ==> state == old(state) && port == old(port)
      ensures Tick(old(counter)).1 ==>
        (port, state) == Step(alarmActive != 0, pumpActive != 0, old(state))
    {
      counter := Wrap8(counter + 1);
      if counter < STEP_CALLS {
        return;
      }
      counter := 0;
      if alarmActive != 0 {
        state := (state + 1) % 2;
        if state != 0 {
          port := ALL_ON;
        } else {
          port := ALL_OFF;
        }
      } else if pumpActive != 0 {
        Pow2Pin(state);
        var pattern := ALL_OFF - Pow2(state);
        port := pattern;
        state := (state + 1) % 8;
      } else {
        port := ALL_OFF;
        state := 0;
      }
    }

    /**
     * Fan_Set_Speed: clamps to 100, keeps the value and forwards it to the PWM channel,
     * which then reads back at most that value, and exactly it for a period that is a
     * multiple of 100.
     */
    method FanSetSpeed(speed: u8)
      modifies this`fanSpeed, pwm`compare
      ensures fanSpeed == FanPwm.Clamp100(speed)
      ensures pwm.period == 0 ==> pwm.compare == old(pwm.compare)
      ensures pwm.period > 0 ==> pwm.compare == FanPwm.CompareFor(pwm.period, fanSpeed)
      ensures pwm.period > 0 ==> pwm.GetPercent() <= FanGetSpeed()
      ensures pwm.period > 0 && pwm.period % 100 == 0 ==> pwm.GetPercent() == FanGetSpeed()
    {
      var s := speed;
      if s > 100 {
        s := 100;
      }
      fanSpeed := s;
      pwm.SetPercent(s);
      if pwm.period > 0 {
        FanPwm.SetThenGet(pwm.period, s);
      }
    }

    /** Fan_Get_Speed: the last speed set, clamped. */
    function FanGetSpeed(): u8
      reads this
    {
      fanSpeed
    }
  }
}
