/**
 * The fan's PWM channel of fan_pwm.c: a period fixed at initialisation and a compare
 * value that sets the duty cycle, converted to and from a percentage.
 */
module FanPwm {
  import opened Ints

  /** A requested percentage limited to 100. */
  function Clamp100(percent: int): (p: int)
    ensures p <= 100 && (percent <= 100 ==> p == percent) && (percent > 100 ==> p == 100)
  {
    if percent > 100 then 100 else percent
  }

  /** x·k/d stays within k when 0 <= x <= d. */
  lemma ScaledBound(x: int, k: int, d: int)
    requires 0 <= x <= d && 0 < d && 0 <= k
    ensures 0 <= x * k / d <= k
  {
    MulMonotone(k, x, d);
    assert x * k <= d * k;
    DivMonotone(x * k, d * k, d);
    MulDivCancel(d, k);
    MulMonotone(x, 0, k);
    DivMonotone(0, x * k, d);
  }

  /** The compare value Fan_Set_Speed_Percent writes for a period and a clamped percentage. */
  function CompareFor(period: u16, percent: int): (c: int)
    requires 0 <= percent <= 100
    ensures 0 <= c <= period
  {
    ScaledBound(percent, period, 100);
    assert percent * period == period * percent;
    period * percent / 100
  }

  /** The percentage Fan_Get_Speed_Percent reads back: compare·100/period, 0 before initialisation. */
  function PercentOf(compare: u16, period: u16): (p: u8)
    ensures period == 0 ==> p == 0
    ensures 0 < period && compare <= period ==> p == compare * 100 / period && p <= 100
  {
    if period == 0 then 0
    else
      var x := compare * 100 / period;
      if compare <= period then ScaledBound(compare, 100, period); Wrap8(x)
      else Wrap8(x)
  }

  /**
   * Reading back a percentage that was set gives at most the clamped request, and exactly
   * it when the period is a multiple of 100 (such as the 500 used by the firmware).
   */
  lemma SetThenGet(period: u16, percent: u8)
    requires period > 0
    ensures var q := Clamp100(percent);
      PercentOf(CompareFor(period, q), period) <= q
      && (period % 100 == 0 ==> PercentOf(CompareFor(period, q), period) == q)
  {
    var q := Clamp100(percent);
    var c := CompareFor(period, q);
    ReadBack(period, q, c);
  }

  /** The arithmetic of SetThenGet over plain integers. */
  lemma ReadBack(period: int, q: int, c: int)
    requires 0 < period && 0 <= q <= 100 && c == period * q / 100
    ensures c * 100 / period <= q
    ensures period % 100 == 0 ==> c * 100 / period == q
  {
    assert 100 * c <= period * q;
    assert c * 100 == 100 * c;
    DivMonotone(c * 100, period * q, period);
    MulDivCancel(period, q);
    if period % 100 == 0 {
      var k := period / 100;
      assert period == 100 * k;
      assert period * q == 100 * (k * q);
      assert c == k * q;
      assert c * 100 == (100 * k) * q;
    }
  }

  /** The duty cycle is not always exact: with a period of 99, setting 50% reads back 49%. */
  lemma RoundingLoss()
    ensures PercentOf(CompareFor(99, 50), 99) == 49
  {
  }

  /** pwm_period and TIM3's channel-1 compare register. */
  class Pwm {
    var period: u16
    var compare: u16

    constructor ()
      ensures period == 0 && compare == 0
    {
      period := 0;
      compare := 0;
    }

    /** Fan_PWM_Init's state changes: stores the period and stops the fan. */
    method Init(per: u16)
      modifies this
      ensures period == per && compare == 0
      ensures GetPercent() == 0
    {
      period := per;
      compare := 0;
    }

    /** Fan_Set_Speed_Percent: clamps to 100; writes nothing before initialisation. */
    method SetPercent(percent: u8)
      modifies this`compare
      ensures period == 0 ==> compare == old(compare)
      ensures period > 0 ==> compare == CompareFor(period, Clamp100(percent))
    {
      var p := percent;
      if p > 100 {
        p := 100;
      }
      if period == 0 {
        return;
      }
      var ccr := period * p / 100;
      compare := ccr;
    }

    /** Fan_Get_Speed_Percent. */
    function GetPercent(): (p: u8)
      reads this
      ensures p == PercentOf(compare, period)
      ensures compare <= period ==> p <= 100
    {
      if period == 0 then 0 else Wrap8(compare * 100 / period)
    }
  }
}
