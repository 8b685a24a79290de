/**
 * The soil-moisture probe's raw-reading-to-percentage map: a linear
 * interpolation between the fully wet and the fully dry ADC value, clamped
 * to [0, 100]. The ADC read itself is a hardware call and is the input here.
 */
module Soil {

  /** Raw ADC value of completely dry soil. */
  const DryValue: int := 55000
  /** Raw ADC value of completely wet soil. */
  const WetValue: int := 22000

  /** The interpolation line on its own, without the clamps. */
  function Interpolated(raw: int): real {
    ((DryValue - raw) as real / (DryValue - WetValue) as real) * 100.0
  }

  function Clamp(x: real, lo: real, hi: real): (r: real)
    requires lo <= hi
    ensures lo <= r <= hi
    ensures lo <= x <= hi ==> r == x
  {
    if x < lo then lo else if x > hi then hi else x
  }

  /** check_soil_moisture: the percentage reported for a raw reading. */
  function MoisturePercent(raw: int): (pct: real)
    ensures 0.0 <= pct <= 100.0
  {
    if raw <= WetValue then 100.0
    else if raw >= DryValue then 0.0
    else Interpolated(raw)
  }

  /** The if/elif/else chain is the interpolation line clamped to [0, 100]. */
  lemma MoistureIsClampedLine(raw: int)
    ensures MoisturePercent(raw) == Clamp(Interpolated(raw), 0.0, 100.0)
  {
    if raw <= WetValue {
      InterpolatedAntitone(WetValue, raw);
    } else if raw >= DryValue {
      InterpolatedAntitone(raw, DryValue);
    } else {
      InterpolatedStrict(raw);
    }
  }

  lemma InterpolatedAntitone(a: int, b: int)
    requires a >= b
    ensures Interpolated(a) <= Interpolated(b)
  {
    assert (DryValue - a) as real <= (DryValue - b) as real;
  }

  /** A wetter reading (smaller raw value) never reports drier soil. */
  lemma MoistureAntitone(a: int, b: int)
    requires a <= b
    ensures MoisturePercent(b) <= MoisturePercent(a)
  {
    MoistureIsClampedLine(a);
    MoistureIsClampedLine(b);
    InterpolatedAntitone(b, a);
  }

  /** The line meets the clamps at both ends, so the map has no jump. */
  lemma MoistureContinuousAtEnds()
    ensures Interpolated(WetValue) == 100.0 && MoisturePercent(WetValue) == 100.0
    ensures Interpolated(DryValue) == 0.0 && MoisturePercent(DryValue) == 0.0
  {
  }

  /** The three regions of the map, as check_soil_moisture states them. */
  lemma MoistureRegions(raw: int)
    ensures raw <= WetValue ==> MoisturePercent(raw) == 100.0
    ensures raw >= DryValue ==> MoisturePercent(raw) == 0.0
    ensures WetValue < raw < DryValue ==>
      MoisturePercent(raw) == (DryValue - raw) as real / 33000.0 * 100.0
      && 0.0 < MoisturePercent(raw) < 100.0
  {
    if WetValue < raw < DryValue {
      InterpolatedStrict(raw);
    }
  }

  lemma InterpolatedStrict(raw: int)
    requires WetValue < raw < DryValue
    ensures 0.0 < Interpolated(raw) < 100.0
  {
    var d := (DryValue - raw) as real;
    assert 0.0 < d < 33000.0;
    assert Interpolated(raw) == d / 33000.0 * 100.0;
  }
}
