/**
 * How init turns a player's settings into the number of axis divisions it
 * draws: no axis unless the axis width is positive, otherwise
 * floor(height / axisDivisionHeight) divisions, smoothed unless the
 * smoothing setting is 0. Settings are taken as already parsed numbers.
 */
module AxisSettings {
  import opened Quotient
  import opened Smoothing
  import opened AxisLabels
  import opened Wrappers

  datatype Settings = Settings(
    width: real,
    height: real,
    freqMin: real,
    freqMax: real,
    axisWidth: real,
    axisDivisionHeight: real,
    axisSmoothing: int)

  /** The defaults of versions 1.1.0 and 2.0.0. */
  const Defaults: Settings := Settings(500.0, 200.0, 0.0, 20.0, 30.0, 40.0, 2)

  /** Version 1.0.0 has the same defaults except a maximum frequency of 0. */
  const FirstReleaseDefaults: Settings := Defaults.(freqMax := 0.0)

  /**
   * The division count init passes to drawAxis, or None when no axis is
   * drawn. Without smoothing it is the height over the division height,
   * rounded down; with smoothing it is what smoothAxis makes of that count:
   * kept for a negative smoothing, otherwise that count or a nice count no
   * farther from it than the smoothing.
   */
  function AxisDivisions(s: Settings): (r: Option<int>)
    requires s.axisDivisionHeight != 0.0
    ensures r.None? <==> s.axisWidth <= 0.0
    ensures r.Some? && s.axisSmoothing == 0 ==> r.value == (s.height / s.axisDivisionHeight).Floor
    ensures r.Some? && s.axisSmoothing != 0 ==>
      r.value == Smoothed(s.freqMax - s.freqMin, (s.height / s.axisDivisionHeight).Floor, NiceDecimals, s.axisSmoothing)
    ensures r.Some? && s.axisSmoothing < 0 ==> r.value == (s.height / s.axisDivisionHeight).Floor
    ensures r.Some? ==>
      || r.value == (s.height / s.axisDivisionHeight).Floor
      || (&& 0 < s.axisSmoothing
          && Nice(s.freqMax - s.freqMin, r.value, NiceDecimals)
          && (s.height / s.axisDivisionHeight).Floor - s.axisSmoothing <= r.value
          && r.value <= (s.height / s.axisDivisionHeight).Floor + s.axisSmoothing)
  {
    if s.axisWidth > 0.0 then
      var divisions := (s.height / s.axisDivisionHeight).Floor;
      if s.axisSmoothing != 0 then
        SmoothedBounds(s.freqMax - s.freqMin, divisions, NiceDecimals, s.axisSmoothing);
        Some(Smoothed(s.freqMax - s.freqMin, divisions, NiceDecimals, s.axisSmoothing))
      else Some(divisions)
    else None
  }

  /** 200 / 40 = 5 divisions before smoothing. */
  lemma DefaultBaseCount()
    ensures (Defaults.height / Defaults.axisDivisionHeight).Floor == 5
  {
    assert Defaults.height / Defaults.axisDivisionHeight == 5.0;
  }

  /**
   * A default player: 200 / 40 = 5 divisions of 20 kHz, 4 kHz each, which is
   * already nice, so 5 divisions are drawn.
   */
  lemma DefaultAxis()
    ensures AxisDivisions(Defaults) == Some(5)
  {
    DefaultBaseCount();
    ExactDivisionIsZero(4, 5.0, Places(4));
    assert 4 as real * 5.0 == 20.0;
    NiceBaseKept(20.0, 5, NiceDecimals, 2);
  }

  /** The default axis reads 20, 16, 12, 8, 4 from the top. */
  lemma DefaultLabels()
    ensures forall i :: 0 <= i < 5 ==> LabelValue(0.0, 20.0, 5, i) == 20.0 - 4.0 * i as real
  {
    forall i | 0 <= i < 5
      ensures LabelValue(0.0, 20.0, 5, i) == 20.0 - 4.0 * i as real
    {
      LabelClosedForm(0.0, 20.0, 5, i);
    }
  }

  /**
   * With the 1.0.0 defaults the range is 0, which every count divides
   * exactly, so the 5 divisions are kept and every label reads 0.
   */
  lemma FirstReleaseDefaultAxis()
    ensures AxisDivisions(FirstReleaseDefaults) == Some(5)
    ensures forall i :: 0 <= i < 5 ==> LabelValue(0.0, 0.0, 5, i) == 0.0
  {
    DefaultBaseCount();
    ExactDivisionIsZero(0, 5.0, Places(4));
    assert 0 as real * 5.0 == 0.0;
    NiceBaseKept(0.0, 5, NiceDecimals, 2);
  }
}
