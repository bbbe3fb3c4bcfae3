# Spectrogram Player: a Dafny model of its axis and playback arithmetic

Spectrogram Player shows a spectrogram image under an audio element. While
the audio plays, the image scrolls under a fixed time bar. A frequency axis
is drawn on top of the image. This project models the arithmetic and
control logic behind that, in versions 1.0.0 (`spectrogramplayer.js`),
1.1.0 (`spectrogram-player.js`) and 2.0.0 (`src/spectrogram-player.js`) of
the script:

- **Axis smoothing** (`smoothAxis`). This is a bounded, ordered search near
  the division count `floor(height / axisDivisionHeight)`. It looks for a
  count that splits the frequency range into steps whose fractional part is
  0, .5 or .25.
  - It is modelled as the method `Smoothing.SmoothAxis`, with the same loop
    and early returns.
  - It is proved equal to the specification `Smoothing.Smoothed`: the first
    nice element of `ScanOrder`, or the base count.
- **The quotient decimal** (`quotientDecimal`, spelled `qoutientDecimal` in
  1.x). This is JavaScript's `Math.round(q % 1 * b) / b` over exact reals.
  - `%` is a truncating remainder, so the fraction keeps the sign of the
    quotient.
  - `Math.round` rounds half-way cases up.
- **Axis rows** (`drawAxis`):
  - the y coordinate of each grid line
  - the label value `(divisions - i) * range / divisions + min`
  - the label as displayed, rounded to two decimals
- **Playback position**: `viewerWidth / 2 - currentTime / duration * spectWidth`.
  - Version 2.0.0 computes it in `positionSpectrogram`.
  - Versions 1.x compute it for every playing player in `moveSpectrograms`.
- **The player registry of 2.0.0**: `startPlayer` and `stopPlayer` guard
  the repositioning interval. The class `Players.SpectrogramPlayer` models
  this, with a counter standing in for `setInterval`.
- **The settings step of `init`**: from the height, the division height
  and the smoothing setting to the division count passed to `drawAxis`.

The three versions share `smoothAxis`, the quotient decimal and the axis
formula line for line. One model covers all three, and the table cites each
version where it matters.

The code is followed where it disagrees with the 1.0.0 settings comment
(`spectrogramplayer.js:83-96`):

- The comment says a smoothing of +2 tries 5 + 1 first and turns a 12 kHz,
  5-division axis into 6 divisions. The loop tries `base - i` first for any
  non-negative distance, so the result is 4. See
  `SmoothingExamples.TwelveKilohertzPositiveSmoothing`.
- The comment says a smoothing of -2 tries 5 - 1 and yields 4. The loop
  guard `i <= distance` is false at once for a negative distance, so the
  count stays 5. See `SmoothingExamples.TwelveKilohertzNegativeSmoothing`.

The 2.0.0 comment's example (15 kHz, 7 divisions, smoothing 1 gives 6)
agrees with the code. See `SmoothingExamples.FifteenKilohertzExample`.

## Model

| member | source | states |
|---|---|---|
| JsMath.Round | src/spectrogram-player.js:289 | Math.round returns the integer n with x - 1/2 < n <= x + 1/2, so half-way cases go up |
| JsMath.RoundUnique | src/spectrogram-player.js:289 | that integer is unique: any n within those bounds is Round(x) |
| JsMath.RoundMonotone | src/spectrogram-player.js:263 | Math.round preserves order |
| JsMath.Trunc | src/spectrogram-player.js:289 | the truncation behind `%`: rounds toward zero, with bounds for each sign |
| JsMath.ModOne | src/spectrogram-player.js:289 | `q % 1` lies strictly between -1 and 1, has the sign of q, and differs from q by a whole number |
| JsMath.ModOneOfWhole | src/spectrogram-player.js:289 | a whole number has remainder 0 by 1 |
| JsMath.Pow10 | src/spectrogram-player.js:287 | Math.pow(10, n) for a natural n is at least 1, so the scale b never shrinks the fraction |
| JsMath.RoundToScale | src/spectrogram-player.js:289 | `Math.round(x * b) / b` is a whole number of 1/b steps within half a step of x, upper end included |
| JsMath.RoundToScaleUnique | src/spectrogram-player.js:289 | any whole number of 1/b steps in that half-open window is the result |
| JsMath.RoundToScaleFixed | src/spectrogram-player.js:289 | a value that is already a whole number of 1/b steps is returned unchanged |
| JsMath.SameStep | src/spectrogram-player.js:289 | at scale 10000 two candidates in the same window are equal |
| JsMath.FractionRoundsWithinUnit | src/spectrogram-player.js:289 | a fraction in (-1, 1) rounded to four places or to a whole number keeps its sign and stays within [-1, 1] |
| Quotient.Scale | src/spectrogram-player.js:283-287 | b is 1 when precision is undefined, else 10^precision, and is a whole number >= 1 |
| Quotient.FourPlaces | src/spectrogram-player.js:229 | the precision 4 that smoothAxis passes gives the scale 10000 |
| Quotient.QuotientDecimal | src/spectrogram-player.js:279-289 | at four places: a multiple of 1/10000 within 1/20000 of `(dividend / divisor) % 1`. Undefined precision: a whole number within 1/2 of it. In both cases it lies in [0, 1] for a non-negative quotient and in [-1, 0] for a non-positive one. The same code is at spectrogram-player.js:254-263 and spectrogramplayer.js:258-267 |
| Quotient.QuotientDecimalSteps | src/spectrogram-player.js:279-289 | at any precision, decimal * b is the scaled fraction rounded by Math.round, so the decimal is a whole number of 1/b steps |
| Quotient.QuotientDecimalWindow | src/spectrogram-player.js:279-289 | at any precision the decimal lies within half a step 1/(2b) of `(dividend / divisor) % 1`, upper end included |
| Quotient.FourPlacesUnique | src/spectrogram-player.js:279-289 | the four-place contract determines the decimal uniquely |
| Quotient.ExactDivisionIsZero | src/spectrogram-player.js:279-289 | when the divisor goes a whole number of times into the dividend, the decimal is 0 at any precision |
| Quotient.ExactFractionKept | src/spectrogram-player.js:279-289 | a fraction with at most four decimals comes back exactly at four places |
| Quotient.UndefinedPrecisionIsWhole | src/spectrogram-player.js:283-289 | with undefined precision the result is 1 iff the fraction is >= 1/2, -1 iff it is < -1/2, and 0 iff it is in [-1/2, 1/2) |
| Smoothing.Candidates | src/spectrogram-player.js:223-225 | the first n passes contribute 2n candidates, d1 then d2 per pass |
| Smoothing.CandidatesAt | src/spectrogram-player.js:223-225 | pass i puts d1(i) at index 2i and d2(i) at index 2i + 1 of the scan order |
| Smoothing.ScanOrderAt | src/spectrogram-player.js:221-225 | for distance >= 0, index j holds base - j/2 when j is even and base + j/2 when j is odd, with j/2 <= distance |
| Smoothing.PositionInScan | src/spectrogram-player.js:223-225 | every count within a non-negative distance of the base occurs in the scan order |
| Smoothing.EarlierIsCloser | src/spectrogram-player.js:223-225 | an earlier candidate in scan order is strictly closer to the base than a later one, or as close and not larger |
| Smoothing.FirstNiceIndex | src/spectrogram-player.js:227-237 | the index found is the first nice one: everything before it is not nice, and it is nice if it is in range |
| Smoothing.SmoothAxis | src/spectrogram-player.js:217-242 | the loop with its early returns returns exactly Smoothed: the first positive candidate of ScanOrder whose four-place decimal is allowed, else the base. Its result is the base or nice. The same code is at spectrogram-player.js:193-217 and spectrogramplayer.js:197-221 |
| Smoothing.NegativeDistanceKeepsBase | src/spectrogram-player.js:218-223 | a distance of 0 returns the base at once, and a negative distance never enters the loop and returns the base |
| Smoothing.SmoothedBounds | src/spectrogram-player.js:223-241 | any result other than the base is positive, nice, within the distance of the base, and needs a positive distance |
| Smoothing.FirstFound | src/spectrogram-player.js:223-239 | a nice candidate with no nice candidate before it in scan order is the result |
| Smoothing.SmoothedIsClosestNice | src/spectrogram-player.js:221-239 | when any count within a positive distance is nice, the result is nice and no farther from the base; on a tie it is the smaller count |
| Smoothing.SubtractFirstOnTie | src/spectrogram-player.js:221-237 | when base - i is nice, base + i is never returned |
| Smoothing.NoNiceKeepsBase | src/spectrogram-player.js:241 | with no nice count in the window the base is returned |
| Smoothing.NiceBaseKept | src/spectrogram-player.js:223-231 | a nice base is kept for any non-negative distance |
| SmoothingExamples.FifteenKilohertzExample | src/spectrogram-player.js:74-81 | range 15, 7 divisions, smoothing 1 gives 6 |
| SmoothingExamples.TwelveKilohertzPositiveSmoothing | spectrogramplayer.js:83-93 | range 12, 5 divisions, smoothing 2 gives 4, not the 6 the comment claims |
| SmoothingExamples.TwelveKilohertzNegativeSmoothing | spectrogramplayer.js:88-96 | range 12, 5 divisions, smoothing -2 gives 5, not the 4 the comment claims |
| SmoothingExamples.DefaultPlayerKeepsFive | src/spectrogram-player.js:91-97 | the defaults (range 20, 200 / 40 = 5 divisions, smoothing 2) keep 5 |
| AxisLabels.LabelClosedForm | src/spectrogram-player.js:260-268 | the label of row i is max minus i increments of range / divisions. The same code is at spectrogram-player.js:235-243 |
| AxisLabels.TopLabelIsMax | src/spectrogram-player.js:260-268 | row 0 is labelled max |
| AxisLabels.ConsecutiveLabels | src/spectrogram-player.js:262-268 | consecutive labels differ by exactly range / divisions |
| AxisLabels.LabelsDecrease | spectrogramplayer.js:239-250 | for a positive range the labels strictly decrease down the axis, and the last row is one increment above min |
| AxisLabels.ShownLabel | src/spectrogram-player.js:268 | the displayed label is a whole number of hundredths within 0.005 of the value |
| AxisLabels.RowsDescend | src/spectrogram-player.js:262-263 | for a non-negative height, row 0 is at y = 0 and y never decreases with i. No row below `divisions` lies past the rounded height |
| AxisLabels.RowAtEnds | src/spectrogram-player.js:263 | row 0 is at y = 0, and row `divisions` would be at the rounded height |
| AxisLabels.RowsOrdered | src/spectrogram-player.js:263 | for a non-negative height a later row is never above an earlier one |
| AxisLabels.AxisRows | src/spectrogram-player.js:262-270 | the loop yields one row per division (none for divisions <= 0), each with its y and displayed label. The first row is at 0 showing max, and the y values are non-decreasing |
| AxisLabels.TopRow | src/spectrogram-player.js:262-268 | row 0 is drawn at y = 0 and shows the rounded max |
| Playback.SpectrogramWidthKeepsAspect | src/spectrogram-player.js:212 | the scaled width keeps the image's aspect ratio |
| Playback.OffsetAtStart | src/spectrogram-player.js:214 | at time 0 the image's left edge is under the middle of the viewer |
| Playback.OffsetAtEnd | src/spectrogram-player.js:214 | at time = duration the image's right edge is under the middle of the viewer |
| Playback.OffsetTimesDuration | src/spectrogram-player.js:214 | offset * duration = viewerWidth / 2 * duration - currentTime * spectWidth |
| Playback.OffsetMovesLinearly | src/spectrogram-player.js:214 | between two times the image moves left by the elapsed share of the duration times its width |
| Playback.OffsetBounds | src/spectrogram-player.js:214 | within [0, duration] the position stays between the two ends and never moves right as time advances |
| Playback.HalfwayExample | src/spectrogram-player.js:210-214 | a 500 x 200 viewer, a 1000 x 200 image, 5 s into 10 s: width 1000, position -250 |
| Playback.MoveSpectrograms | spectrogram-player.js:171-191 | paused players keep their position. Every other registered player gets the position for its current time. No other entry changes. The same code is at spectrogramplayer.js:175-195 |
| Players.StartedRuns | src/spectrogram-player.js:184-194 | after a start the player has an interval: its old one if it had one, else the fresh handle. The image size is untouched |
| Players.StartIdempotent | src/spectrogram-player.js:186 | a second start keeps the first handle |
| Players.StopIdempotent | src/spectrogram-player.js:196-202 | after a stop the interval is null, and a second stop changes nothing |
| Players.StopUndoesStart | src/spectrogram-player.js:184-202 | starting then stopping a stopped player gives back the same record |
| Players.SpectrogramPlayer.constructor | src/spectrogram-player.js:99 | the registry starts empty |
| Players.SpectrogramPlayer.AddPlayer | src/spectrogram-player.js:160-168 | init records the player with a null interval and the image's width and height as read at init. Nothing else changes |
| Players.SpectrogramPlayer.StartPlayer | src/spectrogram-player.js:184-194 | a stopped player gets a fresh handle. A running one is left alone, so repeated play events start one interval. Handles stay unique |
| Players.SpectrogramPlayer.StopPlayer | src/spectrogram-player.js:196-202 | the interval becomes null. A stopped player is left alone. Nothing else changes |
| Players.SpectrogramPlayer.PositionSpectrogram | src/spectrogram-player.js:204-215 | the position is viewerWidth / 2 at time 0 and viewerWidth / 2 minus the scaled width at the end, and linear in time in between |
| AxisSettings.AxisDivisions | src/spectrogram-player.js:145-148 | no axis unless the axis width is positive. Without smoothing the count is floor(height / axisDivisionHeight). With smoothing it is what smoothAxis returns for that base: the base itself for a negative smoothing, otherwise the base or a nice count within the smoothing of it. The same code is at spectrogramplayer.js:151-154 |
| AxisSettings.DefaultBaseCount | src/spectrogram-player.js:92-96 | the default height over the default division height rounds down to 5 |
| AxisSettings.DefaultAxis | src/spectrogram-player.js:91-97 | the default player draws 5 divisions |
| AxisSettings.DefaultLabels | src/spectrogram-player.js:260-268 | the default axis is labelled 20, 16, 12, 8, 4 from the top |
| AxisSettings.FirstReleaseDefaultAxis | spectrogramplayer.js:102-108 | the 1.0.0 defaults (maximum frequency 0) draw 5 divisions all labelled 0 |

## Left out

- Quotient.QuotientDecimal: its own contract states the rounding and sign
  bounds only for the two precisions the player uses, 4 places and
  undefined. For any precision, the whole-step and half-step bounds are
  proved separately in QuotientDecimalSteps and QuotientDecimalWindow. The
  sign bounds are not proved for other precisions.
- Quotient.Precision: `Places(n: nat)` cannot express a negative or
  fractional `precision`. JavaScript would accept one, but no caller passes
  one.
- Quotient.QuotientDecimal and Smoothing: a divisor of 0 needs IEEE
  Infinity/NaN, so the model requires a non-zero divisor. smoothAxis only
  divides by positive candidates.
- IEEE-754 doubles: all quantities are exact reals. Results that depend on
  binary rounding may differ. For example, 0.1 + 0.2 is not 0.3 in the
  browser.
- Playback.MoveSpectrograms: the new background positions are returned as
  a map instead of being written into each viewer's style.
- Playback.MoveSpectrograms: the formula is only stated for playing players
  whose duration is positive and whose image height is positive. The
  browser produces Infinity or NaN otherwise, for example before the image
  has loaded. Loading the image from the style's URL (`new Image()`, the
  regular expression) is not modelled.
- Players.SpectrogramPlayer.PositionSpectrogram: it requires a positive
  duration and image height, for the same reason.
- Players.SpectrogramPlayer.StartPlayer: it requires a registered id. The
  script would throw a TypeError on an unknown id, but its event handlers
  only pass registered ones. The same holds for StopPlayer.
- `setInterval` / `clearInterval` are modelled as a counter of fresh
  handles. The timer ticks, the 33 ms period and the event listeners
  (`play`, `seeking`, `pause`) are not modelled.
- AxisSettings.AxisDivisions: it requires a non-zero division height.
  Settings are taken as parsed numbers. JavaScript's coercion of attribute
  strings is not modelled; for example, `"0" !== 0` makes the string "0"
  enable smoothing.
- DOM discovery and construction in `init` are not modelled: finding
  players, missing or duplicate image and audio elements, `console.log`,
  creating viewers and time bars. Neither is the canvas drawing in
  `drawAxis`: background, stroke, fonts, `fillText` and the unit caption.
  Only the row positions and label values are modelled.
