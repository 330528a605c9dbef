/**
 * The playback bridge (`useYouTubePlayer`): local state `player`, `isReady`,
 * `isPlaying` and `currentTime` kept in step with the embedded widget by its
 * events, a 100 ms poll, and the guarded `play`, `pause` and relative
 * `seekTo`. Every widget call may throw; the bridge catches and logs.
 */
module YouTubePlayer {

  /** `YT.PlayerState.PLAYING`. */
  const PLAYING: int := 1

  /** A call made on the widget. */
  datatype Call =
    | PlayVideo
    | PauseVideo
    | SeekTo(seconds: real, allowSeekAhead: bool)
    | GetCurrentTime
    | Destroy

  /**
   * The embedded widget, seen only through the calls made on it. Each call
   * takes whether it throws; `GetCurrentTime` also takes the reading it would
   * return.
   */
  class Widget {
    const videoId: string
    /** Whether the optional `destroy` method exists. */
    const hasDestroy: bool
    var calls: seq<Call>

    constructor (videoId: string, hasDestroy: bool)
      ensures this.videoId == videoId && this.hasDestroy == hasDestroy && calls == []
    {
      this.videoId := videoId;
      this.hasDestroy := hasDestroy;
      calls := [];
    }

    method PlayVideo(fault: bool) returns (threw: bool)
      modifies this
      ensures calls == old(calls) + [Call.PlayVideo] && threw == fault
    {
      calls := calls + [Call.PlayVideo];
      threw := fault;
    }

    method PauseVideo(fault: bool) returns (threw: bool)
      modifies this
      ensures calls == old(calls) + [Call.PauseVideo] && threw == fault
    {
      calls := calls + [Call.PauseVideo];
      threw := fault;
    }

    method SeekTo(seconds: real, allowSeekAhead: bool, fault: bool) returns (threw: bool)
      modifies this
      ensures calls == old(calls) + [Call.SeekTo(seconds, allowSeekAhead)] && threw == fault
    {
      calls := calls + [Call.SeekTo(seconds, allowSeekAhead)];
      threw := fault;
    }

    method GetCurrentTime(reading: real, fault: bool) returns (time: real, threw: bool)
      modifies this
      ensures calls == old(calls) + [Call.GetCurrentTime] && threw == fault
      ensures !threw ==> time == reading
    {
      calls := calls + [Call.GetCurrentTime];
      threw := fault;
      time := reading;
    }

    method Destroy(fault: bool) returns (threw: bool)
      modifies this
      ensures calls == old(calls) + [Call.Destroy] && threw == fault
    {
      calls := calls + [Call.Destroy];
      threw := fault;
    }
  }

  /** `Math.max(0, currentTime + seconds)`: the target of a relative seek. */
  function SeekTarget(currentTime: real, seconds: real): (r: real)
    ensures r >= 0.0 && r >= currentTime + seconds
    ensures r == 0.0 || r == currentTime + seconds
  {
    if currentTime + seconds > 0.0 then currentTime + seconds else 0.0
  }

  /** The hook's state and the operations on it. */
  class PlayerBridge {
    var player: Widget?
    var isPlaying: bool
    var currentTime: real
    var isReady: bool

    /** The bridge is only ever ready while it holds a widget. */
    ghost predicate Valid()
      reads this
    {
      isReady ==> player != null
    }

    /** Operations reach the widget only while it is held and ready. */
    predicate Active()
      reads this
    {
      player != null && isReady
    }

    constructor ()
      ensures Valid()
      ensures player == null && !isPlaying && currentTime == 0.0 && !isReady
    {
      player := null;
      isPlaying := false;
      currentTime := 0.0;
      isReady := false;
    }

    /**
     * `initializePlayer`: nothing happens without a mount point or a video id.
     * Otherwise a widget already held is destroyed first (if it has `destroy`;
     * a throw is swallowed) and a new widget is created for the video. The new
     * widget is not held until it reports ready.
     */
    method InitializePlayer(videoId: string, mounted: bool, destroyFault: bool, newHasDestroy: bool)
      returns (created: Widget?)
      requires Valid()
      modifies player
      ensures Valid()
      ensures created != null <==> mounted && videoId != ""
      ensures created != null ==> fresh(created) && created.videoId == videoId && created.calls == []
      ensures player != null ==>
        player.calls == if mounted && videoId != "" && player.hasDestroy then old(player.calls) + [Call.Destroy] else old(player.calls)
    {
      created := null;
      if !mounted || videoId == "" {
        return;
      }
      if player != null && player.hasDestroy {
        var threw := player.Destroy(destroyFault);
      }
      created := new Widget(videoId, newHasDestroy);
    }

    /** `onReady`: hold the widget and become ready. */
    method OnReady(target: Widget)
      modifies this
      ensures Valid()
      ensures player == target && isReady
      ensures isPlaying == old(isPlaying) && currentTime == old(currentTime)
    {
      player := target;
      isReady := true;
    }

    /** `onStateChange`: the only place `isPlaying` changes. */
    method OnStateChange(data: int)
      requires Valid()
      modifies this
      ensures Valid()
      ensures isPlaying == (data == PLAYING)
      ensures player == old(player) && isReady == old(isReady) && currentTime == old(currentTime)
    {
      isPlaying := data == PLAYING;
    }

    /** The effect cleanup on a new video id or on unmount. */
    method Cleanup()
      modifies this
      ensures Valid()
      ensures !isReady
      ensures player == old(player) && isPlaying == old(isPlaying) && currentTime == old(currentTime)
    {
      isReady := false;
    }

    /**
     * One tick of the 100 ms poll (the interval exists only while a widget is
     * held and ready): while playing, read the time, keeping the old value if
     * the read throws; while paused, read nothing.
     */
    method Tick(reading: real, fault: bool)
      requires Valid()
      modifies this, player
      ensures Valid()
      ensures player == old(player) && isReady == old(isReady) && isPlaying == old(isPlaying)
      ensures old(Active()) && isPlaying ==>
        player.calls == old(player.calls) + [Call.GetCurrentTime]
        && currentTime == if fault then old(currentTime) else reading
      ensures !(old(Active()) && isPlaying) ==>
        (player != null ==> player.calls == old(player.calls)) && currentTime == old(currentTime)
    {
      if player != null && isReady && isPlaying {
        var time, threw := player.GetCurrentTime(reading, fault);
        if !threw {
          currentTime := time;
        }
      }
    }

    /** `play`: asks the widget to play; `isPlaying` waits for the state change. */
    method Play(fault: bool)
      modifies player
      ensures player != null ==> player.calls == if isReady then old(player.calls) + [Call.PlayVideo] else old(player.calls)
    {
      if player != null && isReady {
        var threw := player.PlayVideo(fault);
      }
    }

    /** `pause`: asks the widget to pause; `isPlaying` waits for the state change. */
    method Pause(fault: bool)
      modifies player
      ensures player != null ==> player.calls == if isReady then old(player.calls) + [Call.PauseVideo] else old(player.calls)
    {
      if player != null && isReady {
        var threw := player.PauseVideo(fault);
      }
    }

    /**
     * `seekTo(seconds)`: a relative seek to `max(0, currentTime + seconds)`.
     * The local time follows only when the widget call did not throw.
     */
    method SeekTo(seconds: real, fault: bool)
      requires Valid()
      modifies this, player
      ensures Valid()
      ensures player == old(player) && isReady == old(isReady) && isPlaying == old(isPlaying)
      ensures old(Active()) ==>
        player.calls == old(player.calls) + [Call.SeekTo(SeekTarget(old(currentTime), seconds), true)]
        && currentTime == if fault then old(currentTime) else SeekTarget(old(currentTime), seconds)
      ensures !old(Active()) ==>
        (player != null ==> player.calls == old(player.calls)) && currentTime == old(currentTime)
    {
      if player != null && isReady {
        var newTime := SeekTarget(currentTime, seconds);
        var threw := player.SeekTo(newTime, true, fault);
        if !threw {
          currentTime := newTime;
        }
      }
    }
  }

  /**
   * After the cleanup, `play`, `pause`, `seekTo` and a poll tick reach nothing:
   * the held widget sees no call and the local state stays as it was.
   */
  method OperationsAfterCleanup(bridge: PlayerBridge, fault: bool, seconds: real, reading: real)
    modifies bridge, bridge.player
    ensures bridge.player == old(bridge.player) && !bridge.isReady
    ensures bridge.player != null ==> bridge.player.calls == old(bridge.player.calls)
    ensures bridge.isPlaying == old(bridge.isPlaying) && bridge.currentTime == old(bridge.currentTime)
  {
    bridge.Cleanup();
    bridge.Play(fault);
    bridge.Pause(fault);
    bridge.SeekTo(seconds, fault);
    bridge.Tick(reading, fault);
  }
}
