/**
 * The player registry of version 2.0.0: one record per player holding the
 * handle of its repositioning interval (null while it is not playing) and
 * the width and height of its spectrogram image as read at init. Playing starts the interval, pausing
 * stops it, and each tick of the interval repositions the spectrogram.
 *
 * setInterval is abstracted as a counter handing out fresh handles, and
 * clearInterval as forgetting the handle.
 */
module Players {
  import opened Playback
  import opened Wrappers

  /**
   * One entry of `players`: the interval handle and the spectrogram image's
   * width and height as read at init (`original_width`, `original_height`).
   */
  datatype Player = Player(interval: Option<nat>, originalWidth: real, originalHeight: real)

  /** The guard of startPlayer: a stopped player gets the fresh handle, a started one is left alone. */
  function Started(p: Player, handle: nat): Player {
    if p.interval.None? then p.(interval := Some(handle)) else p
  }

  /** The guard of stopPlayer: a started player's handle is cleared, a stopped one is left alone. */
  function Stopped(p: Player): Player {
    if p.interval.Some? then p.(interval := None) else p
  }

  /** After a start the player is running, under its old handle if it had one. */
  lemma StartedRuns(p: Player, handle: nat)
    ensures Started(p, handle).interval == if p.interval.Some? then p.interval else Some(handle)
    ensures Started(p, handle).originalWidth == p.originalWidth
    ensures Started(p, handle).originalHeight == p.originalHeight
  {
  }

  /** Starting twice is starting once: the second start keeps the first handle. */
  lemma StartIdempotent(p: Player, h1: nat, h2: nat)
    ensures Started(Started(p, h1), h2) == Started(p, h1)
  {
  }

  /** After a stop the player has no interval, and stopping twice is stopping once. */
  lemma StopIdempotent(p: Player)
    ensures Stopped(p).interval.None?
    ensures Stopped(Stopped(p)) == Stopped(p)
    ensures Stopped(p) == p.(interval := None)
  {
  }

  /** Stopping undoes starting: a stopped player that is started and stopped again is as before. */
  lemma StopUndoesStart(p: Player, handle: nat)
    requires p.interval.None?
    ensures Stopped(Started(p, handle)) == p
  {
  }

  class SpectrogramPlayer {
    /** The players by their index on the page. */
    var players: map<int, Player>
    /** The next handle the abstract setInterval hands out. */
    var nextHandle: nat

    /** Every live handle was handed out already, and no two players share one. */
    ghost predicate Valid()
      reads this
    {
      && (forall id :: id in players && players[id].interval.Some? ==> players[id].interval.value < nextHandle)
      && (forall id1, id2 ::
            (&& id1 in players && id2 in players
             && players[id1].interval.Some? && players[id2].interval.Some?
             && players[id1].interval.value == players[id2].interval.value)
            ==> id1 == id2)
    }

    /** No players before init has run. */
    constructor()
      ensures players == map[] && nextHandle == 0
      ensures Valid()
    {
      players := map[];
      nextHandle := 0;
    }

    /** The record init stores for player i: no interval yet, and the image's width and height as read at init. */
    method AddPlayer(id: int, originalWidth: real, originalHeight: real)
      requires Valid()
      modifies this
      ensures players == old(players)[id := Player(None, originalWidth, originalHeight)]
      ensures nextHandle == old(nextHandle)
      ensures Valid()
    {
      players := players[id := Player(None, originalWidth, originalHeight)];
    }

    /**
     * The play handler: an interval is started only when the player has
     * none, so a second play event does not start a second interval.
     */
    method StartPlayer(id: int)
      requires Valid()
      requires id in players
      modifies this
      ensures players == old(players)[id := Started(old(players)[id], old(nextHandle))]
      ensures nextHandle == if old(players)[id].interval.None? then old(nextHandle) + 1 else old(nextHandle)
      ensures players[id].interval.Some?
      ensures old(players)[id].interval.Some? ==> players == old(players)
      ensures Valid()
    {
      var player := players[id];
      if player.interval.None? {
        players := players[id := player.(interval := Some(nextHandle))];
        nextHandle := nextHandle + 1;
      }
    }

    /** The pause handler: the interval is cleared when there is one; a stopped player is left alone. */
    method StopPlayer(id: int)
      requires Valid()
      requires id in players
      modifies this
      ensures players == old(players)[id := Stopped(old(players)[id])]
      ensures nextHandle == old(nextHandle)
      ensures players[id].interval.None?
      ensures old(players)[id].interval.None? ==> players == old(players)
      ensures Valid()
    {
      var player := players[id];
      if player.interval.Some? {
        players := players[id := player.(interval := None)];
      }
    }

    /**
     * positionSpectrogram: the background position for the player's current
     * time, the spectrogram scaled to the viewer's height. The viewer's size
     * and the audio's time and duration are read from the page, so they are
     * parameters here.
     */
    function PositionSpectrogram(id: int, viewerWidth: real, viewerHeight: real, currentTime: real, duration: real): (x: real)
      reads this
      requires id in players && players[id].originalHeight > 0.0
      requires duration > 0.0
      ensures currentTime == 0.0 ==> x == viewerWidth / 2.0
      ensures currentTime == duration ==>
        x == viewerWidth / 2.0 - viewerHeight / players[id].originalHeight * players[id].originalWidth
      ensures x * duration == viewerWidth / 2.0 * duration
        - currentTime * SpectrogramWidth(viewerHeight, players[id].originalWidth, players[id].originalHeight)
    {
      var spectWidth := SpectrogramWidth(viewerHeight, players[id].originalWidth, players[id].originalHeight);
      OffsetAtStart(viewerWidth, duration, spectWidth);
      OffsetAtEnd(viewerWidth, duration, spectWidth);
      OffsetTimesDuration(viewerWidth, currentTime, duration, spectWidth);
      Offset(viewerWidth, currentTime, duration, spectWidth)
    }
  }
}
