/**
 * Keeping the spectrogram under the time bar. The viewer's background image
 * is the spectrogram scaled to the viewer's height; the point of the image
 * for the current time sits under the viewer's middle, so the background is
 * shifted to viewerWidth / 2 - currentTime / duration * spectWidth.
 *
 * Version 2.0.0 computes this per player in positionSpectrogram (see the
 * Players module); versions 1.x compute it for every playing player on each
 * tick of moveSpectrograms, modelled here.
 */
module Playback {

  /** The width of the spectrogram once scaled to the viewer's height, keeping its aspect ratio. */
  function SpectrogramWidth(viewerHeight: real, imageWidth: real, imageHeight: real): real
    requires imageHeight > 0.0
  {
    viewerHeight / imageHeight * imageWidth
  }

  /** The background position, in pixels, for a spectrogram of width spectWidth at currentTime. */
  function Offset(viewerWidth: real, currentTime: real, duration: real, spectWidth: real): real
    requires duration > 0.0
  {
    viewerWidth / 2.0 - currentTime / duration * spectWidth
  }

  /** The scaled width keeps the image's aspect ratio: width / viewerHeight == imageWidth / imageHeight. */
  lemma SpectrogramWidthKeepsAspect(viewerHeight: real, imageWidth: real, imageHeight: real)
    requires imageHeight > 0.0
    ensures SpectrogramWidth(viewerHeight, imageWidth, imageHeight) * imageHeight == viewerHeight * imageWidth
  {
    var h := viewerHeight / imageHeight;
    assert h * imageHeight == viewerHeight;
    assert h * imageWidth * imageHeight == h * imageHeight * imageWidth;
  }

  /** At the start of the audio the spectrogram's left edge is under the middle of the viewer. */
  lemma OffsetAtStart(viewerWidth: real, duration: real, spectWidth: real)
    requires duration > 0.0
    ensures Offset(viewerWidth, 0.0, duration, spectWidth) == viewerWidth / 2.0
  {
  }

  /** At the end of the audio the spectrogram's right edge is under the middle of the viewer. */
  lemma OffsetAtEnd(viewerWidth: real, duration: real, spectWidth: real)
    requires duration > 0.0
    ensures Offset(viewerWidth, duration, duration, spectWidth) == viewerWidth / 2.0 - spectWidth
  {
    assert duration / duration == 1.0;
  }

  /** Cleared of the division: offset * duration == viewerWidth / 2 * duration - currentTime * spectWidth. */
  lemma OffsetTimesDuration(viewerWidth: real, currentTime: real, duration: real, spectWidth: real)
    requires duration > 0.0
    ensures Offset(viewerWidth, currentTime, duration, spectWidth) * duration
      == viewerWidth / 2.0 * duration - currentTime * spectWidth
  {
    var share := currentTime / duration;
    assert share * duration == currentTime;
    assert share * spectWidth * duration == share * duration * spectWidth;
  }

  /**
   * The image moves left at a constant speed: between two times it moves by
   * the elapsed share of the duration times the width.
   */
  lemma OffsetMovesLinearly(viewerWidth: real, t1: real, t2: real, duration: real, spectWidth: real)
    requires duration > 0.0
    ensures Offset(viewerWidth, t1, duration, spectWidth) - Offset(viewerWidth, t2, duration, spectWidth)
      == (t2 - t1) / duration * spectWidth
  {
    assert t2 / duration - t1 / duration == (t2 - t1) / duration;
    assert t2 / duration * spectWidth - t1 / duration * spectWidth == (t2 / duration - t1 / duration) * spectWidth;
  }

  /**
   * While the time stays within the audio, the position stays between the
   * two ends and never moves right as time advances.
   */
  lemma OffsetBounds(viewerWidth: real, t1: real, t2: real, duration: real, spectWidth: real)
    requires duration > 0.0 && spectWidth >= 0.0
    requires 0.0 <= t1 <= t2 <= duration
    ensures viewerWidth / 2.0 - spectWidth <= Offset(viewerWidth, t2, duration, spectWidth)
    ensures Offset(viewerWidth, t2, duration, spectWidth) <= Offset(viewerWidth, t1, duration, spectWidth)
    ensures Offset(viewerWidth, t1, duration, spectWidth) <= viewerWidth / 2.0
  {
    OffsetMovesLinearly(viewerWidth, t1, t2, duration, spectWidth);
    OffsetMovesLinearly(viewerWidth, 0.0, t1, duration, spectWidth);
    OffsetMovesLinearly(viewerWidth, t2, duration, duration, spectWidth);
    OffsetAtStart(viewerWidth, duration, spectWidth);
    OffsetAtEnd(viewerWidth, duration, spectWidth);
    ShareOfWidth(t2 - t1, duration, spectWidth);
    ShareOfWidth(t1, duration, spectWidth);
    ShareOfWidth(duration - t2, duration, spectWidth);
  }

  /** A non-negative share of the duration is a non-negative share of the width. */
  lemma ShareOfWidth(t: real, duration: real, spectWidth: real)
    requires duration > 0.0 && spectWidth >= 0.0 && t >= 0.0
    ensures t / duration * spectWidth >= 0.0
  {
    assert t / duration >= 0.0;
  }

  /**
   * A default 500 x 200 viewer showing a 1000 x 200 image halfway through a
   * 10 second recording: the image is 1000 pixels wide and sits at -250.
   */
  lemma HalfwayExample()
    ensures SpectrogramWidth(200.0, 1000.0, 200.0) == 1000.0
    ensures Offset(500.0, 5.0, 10.0, SpectrogramWidth(200.0, 1000.0, 200.0)) == -250.0
  {
  }

  /**
   * What one tick of moveSpectrograms reads for a player: whether its audio
   * is paused, the viewer's size, the audio's time and duration, and the
   * natural size of the spectrogram image.
   */
  datatype PlayerView = PlayerView(
    paused: bool,
    viewerWidth: real,
    viewerHeight: real,
    currentTime: real,
    duration: real,
    imageWidth: real,
    imageHeight: real)

  /** The formula is defined: a known, positive duration and a loaded image. */
  predicate Measurable(v: PlayerView) {
    v.duration > 0.0 && v.imageHeight > 0.0
  }

  /** The background position a tick assigns to a player that is playing. */
  function PlayingPosition(v: PlayerView): real
    requires Measurable(v)
  {
    Offset(v.viewerWidth, v.currentTime, v.duration, SpectrogramWidth(v.viewerHeight, v.imageWidth, v.imageHeight))
  }

  /**
   * One tick of moveSpectrograms over the registered player ids: paused
   * players are skipped and keep their background position; every other one
   * gets the position for its current time. `positions` holds the viewers'
   * background positions before the tick and `moved` after it.
   */
  method MoveSpectrograms(ids: seq<int>, views: map<int, PlayerView>, positions: map<int, real>)
    returns (moved: map<int, real>)
    requires forall k :: 0 <= k < |ids| ==> ids[k] in views
    requires forall k :: 0 <= k < |ids| ==> views[ids[k]].paused || Measurable(views[ids[k]])
    ensures moved.Keys == positions.Keys + set id | id in ids && !views[id].paused
    ensures forall id :: id in moved ==>
      moved[id] == if id in ids && !views[id].paused then PlayingPosition(views[id]) else positions[id]
  {
    moved := positions;
    var i := 0;
    while i < |ids|
      invariant 0 <= i <= |ids|
      invariant moved.Keys == positions.Keys + set id | id in ids[..i] && !views[id].paused
      invariant forall id :: id in moved ==>
        moved[id] == if id in ids[..i] && !views[id].paused then PlayingPosition(views[id]) else positions[id]
    {
      var id := ids[i];
      assert ids[..i + 1] == ids[..i] + [id];
      if !views[id].paused {
        moved := moved[id := PlayingPosition(views[id])];
      }
      i := i + 1;
    }
    assert ids[..i] == ids;
  }
}
