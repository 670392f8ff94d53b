/**
 * The light sensor of lsens.c: ten 12-bit ADC readings are summed in a u16, averaged,
 * and turned into a brightness percentage (a bright light gives a low reading).
 */
module Lsens {
  import opened Ints

  /** Readings averaged per measurement. */
  const SAMPLES := 10
  /** Full scale of the 12-bit ADC. */
  const ADC_MAX := 4095

  /** The exact sum of the readings. */
  function Sum(xs: seq<u16>): int
  {
    if |xs| == 0 then 0 else Sum(xs[..|xs| - 1]) + xs[|xs| - 1]
  }

  /** (u8)(100 - avg·100/4095). */
  function LightPercent(avg: u16): (p: u8)
  {
    Wrap8(100 - avg * 100 / ADC_MAX)
  }

  /** The value Lsens_Get_Val returns for the ten readings it takes. */
  function LightOf(samples: seq<u16>): u8
    requires |samples| == SAMPLES
  {
    LightPercent(Wrap16(Sum(samples)) / SAMPLES)
  }

  /** Readings of at most full scale sum to at most n·4095. */
  lemma {:induction false} SumBound(xs: seq<u16>)
    requires forall i :: 0 <= i < |xs| ==> xs[i] <= ADC_MAX
    ensures 0 <= Sum(xs) <= |xs| * ADC_MAX
  {
    if |xs| > 0 {
      SumBound(xs[..|xs| - 1]);
    }
  }

  /** An average within the ADC's range gives a percentage: 100 minus its scaled value. */
  lemma PercentInRange(avg: u16)
    requires avg <= ADC_MAX
    ensures LightPercent(avg) == 100 - avg * 100 / ADC_MAX
    ensures 0 <= LightPercent(avg) <= 100
  {
    MulMonotone(100, avg, ADC_MAX);
    assert avg * 100 <= ADC_MAX * 100;
    DivMonotone(avg * 100, ADC_MAX * 100, ADC_MAX);
    DivMonotone(0, avg * 100, ADC_MAX);
  }

  /**
   * For 12-bit readings the u16 sum does not overflow, so the value is the percentage
   * of the true average, between 0 and 100.
   */
  lemma NoOverflow(samples: seq<u16>)
    requires |samples| == SAMPLES
    requires forall i :: 0 <= i < |samples| ==> samples[i] <= ADC_MAX
    ensures Wrap16(Sum(samples)) == Sum(samples)
    ensures LightOf(samples) == 100 - (Sum(samples) / SAMPLES) * 100 / ADC_MAX
    ensures 0 <= LightOf(samples) <= 100
  {
    SumBound(samples);
    var avg := Sum(samples) / SAMPLES;
    DivMonotone(Sum(samples), SAMPLES * ADC_MAX, SAMPLES);
    PercentInRange(avg);
  }

  /** Darkness reads 100% less than full light: average 0 gives 100, full scale gives 0. */
  lemma Extremes()
    ensures LightPercent(0) == 100 && LightPercent(ADC_MAX) == 0
  {
  }

  /** A higher reading never gives a higher brightness. */
  lemma Decreasing(a: u16, b: u16)
    requires a <= b <= ADC_MAX
    ensures LightPercent(b) <= LightPercent(a)
  {
    PercentInRange(a);
    PercentInRange(b);
    MulMonotone(100, a, b);
    assert a * 100 <= b * 100;
    DivMonotone(a * 100, b * 100, ADC_MAX);
  }

  /** Lsens_Get_Val, given the ten readings Lsens_Get_Adc returns in turn. */
  method GetVal(samples: seq<u16>) returns (v: u8)
    requires |samples| == SAMPLES
    ensures v == LightOf(samples)
  {
    var sum: u16 := 0;
    var i := 0;
    while i < SAMPLES
      invariant 0 <= i <= SAMPLES
      invariant sum == Wrap16(Sum(samples[..i]))
    {
      assert samples[..i + 1][..i] == samples[..i];
      WrapAdd16(Sum(samples[..i]), samples[i]);
      sum := Wrap16(sum + samples[i]);
      i := i + 1;
    }
    assert samples[..SAMPLES] == samples;
    sum := sum / SAMPLES;
    v := Wrap8(100 - sum * 100 / ADC_MAX);
  }
}
