/**
 * The arithmetic of drawAxis: for each row i of `divisions` rows, a grid
 * line at y = round(height / divisions * i) and the label
 * (divisions - i) * range / divisions + min, shown rounded to two decimals.
 * The canvas calls themselves (fill, stroke, fonts, the unit caption) are
 * not modelled; AxisRows returns the (y, label) pairs the loop draws.
 */
module AxisLabels {
  import opened JsMath

  /** curVal for row i, where range = max - min. */
  function LabelValue(min: real, max: real, divisions: int, i: int): real
    requires divisions > 0
  {
    (divisions - i) as real * (max - min) / divisions as real + min
  }

  /** The increment between two rows: range / divisions. */
  function Increment(min: real, max: real, divisions: int): real
    requires divisions > 0
  {
    (max - min) / divisions as real
  }

  /**
   * Row i is i increments below max: the labels start at max and run down
   * in equal steps (an independent statement of LabelValue).
   */
  lemma LabelClosedForm(min: real, max: real, divisions: int, i: int)
    requires divisions > 0
    ensures LabelValue(min, max, divisions, i) == max - i as real * Increment(min, max, divisions)
  {
    var d, range := divisions as real, max - min;
    var step := range / d;
    assert step * d == range;
    assert (divisions - i) as real * range == (d - i as real) * (step * d);
    assert (d - i as real) * (step * d) / d == (d - i as real) * step;
  }

  /** The top row (i = 0) is labelled with max. */
  lemma TopLabelIsMax(min: real, max: real, divisions: int)
    requires divisions > 0
    ensures LabelValue(min, max, divisions, 0) == max
  {
    LabelClosedForm(min, max, divisions, 0);
  }

  /** Consecutive rows differ by exactly range / divisions. */
  lemma ConsecutiveLabels(min: real, max: real, divisions: int, i: int)
    requires divisions > 0
    ensures LabelValue(min, max, divisions, i) - LabelValue(min, max, divisions, i + 1) == Increment(min, max, divisions)
  {
    LabelClosedForm(min, max, divisions, i);
    LabelClosedForm(min, max, divisions, i + 1);
  }

  /**
   * For a positive range the labels strictly decrease down the axis, and the
   * last drawn row (i = divisions - 1) is one increment above min.
   */
  lemma LabelsDecrease(min: real, max: real, divisions: int, i: int, j: int)
    requires divisions > 0
    requires min < max
    requires i < j
    ensures LabelValue(min, max, divisions, j) < LabelValue(min, max, divisions, i)
    ensures LabelValue(min, max, divisions, divisions - 1) == min + Increment(min, max, divisions)
  {
    LabelClosedForm(min, max, divisions, i);
    LabelClosedForm(min, max, divisions, j);
    LabelClosedForm(min, max, divisions, divisions - 1);
    var step := Increment(min, max, divisions);
    assert step > 0.0;
    assert (j - i) as real * step > 0.0;
    assert j as real * step == i as real * step + (j - i) as real * step;
    assert (divisions - 1) as real * step == divisions as real * step - step;
    assert divisions as real * step == max - min;
  }

  /** The text shown for a value: Math.round(value * 100) / 100. */
  function ShownLabel(value: real): (shown: real)
    ensures IsWhole(shown * 100.0)
    ensures value - 0.005 < shown <= value + 0.005
  {
    RoundToScale(value, 100.0)
  }

  /** The y coordinate of row i: Math.round(height / divisions * i). */
  function RowY(height: real, divisions: int, i: int): int
    requires divisions > 0
  {
    Round(height / divisions as real * i as real)
  }

  /**
   * For a non-negative height the rows go down the canvas: row 0 is at the
   * top and y never decreases with i, and no drawn row is below the
   * rounded height.
   */
  lemma RowsDescend(height: real, divisions: int, i: int, j: int)
    requires divisions > 0
    requires 0.0 <= height
    requires 0 <= i <= j <= divisions
    ensures RowY(height, divisions, 0) == 0
    ensures 0 <= RowY(height, divisions, i) <= RowY(height, divisions, j) <= Round(height)
  {
    RowAtEnds(height, divisions);
    RowsOrdered(height, divisions, 0, i);
    RowsOrdered(height, divisions, i, j);
    RowsOrdered(height, divisions, j, divisions);
  }

  /** Row 0 is at y = 0 and row `divisions` (one past the last) at the rounded height. */
  lemma RowAtEnds(height: real, divisions: int)
    requires divisions > 0
    ensures RowY(height, divisions, 0) == 0
    ensures RowY(height, divisions, divisions) == Round(height)
  {
    var h := height / divisions as real;
    assert h * divisions as real == height;
    assert h * 0 as real == 0.0;
    RoundUnique(0.0, 0);
  }

  /** For a non-negative height a later row is never above an earlier one. */
  lemma RowsOrdered(height: real, divisions: int, i: int, j: int)
    requires divisions > 0 && 0.0 <= height && i <= j
    ensures RowY(height, divisions, i) <= RowY(height, divisions, j)
  {
    var h := height / divisions as real;
    assert h >= 0.0;
    assert h * i as real <= h * j as real;
    RoundMonotone(h * i as real, h * j as real);
  }

  /** One line of the axis: its y coordinate and the label drawn there. */
  datatype AxisRow = AxisRow(y: int, shown: real)

  /**
   * The loop of drawAxis, `for (i = 0; i < divisions; i++)`, collecting the
   * rows it draws. No rows are drawn for a non-positive division count; the
   * first row is at the top and shows max; rows run down the canvas.
   */
  method AxisRows(height: real, min: real, max: real, divisions: int) returns (rows: seq<AxisRow>)
    ensures |rows| == if divisions > 0 then divisions else 0
    ensures forall i :: 0 <= i < |rows| ==>
      rows[i] == AxisRow(RowY(height, divisions, i), ShownLabel(LabelValue(min, max, divisions, i)))
    ensures |rows| > 0 ==> rows[0] == AxisRow(0, ShownLabel(max))
    ensures 0.0 <= height ==> forall i, j :: 0 <= i <= j < |rows| ==> rows[i].y <= rows[j].y
  {
    rows := [];
    if divisions <= 0 {
      return;
    }
    var i := 0;
    while i < divisions
      invariant 0 <= i <= divisions
      invariant |rows| == i
      invariant forall k :: 0 <= k < i ==>
        rows[k] == AxisRow(RowY(height, divisions, k), ShownLabel(LabelValue(min, max, divisions, k)))
    {
      var y := RowY(height, divisions, i);
      var curVal := LabelValue(min, max, divisions, i);
      rows := rows + [AxisRow(y, ShownLabel(curVal))];
      i := i + 1;
    }
    TopRow(height, min, max, divisions);
    if 0.0 <= height {
      forall i, j | 0 <= i <= j < |rows|
        ensures rows[i].y <= rows[j].y
      {
        RowsDescend(height, divisions, i, j);
      }
    }
  }

  /** The first row is drawn at the top and shows max. */
  lemma TopRow(height: real, min: real, max: real, divisions: int)
    requires divisions > 0
    ensures RowY(height, divisions, 0) == 0
    ensures ShownLabel(LabelValue(min, max, divisions, 0)) == ShownLabel(max)
  {
    TopLabelIsMax(min, max, divisions);
    RowAtEnds(height, divisions);
  }
}
