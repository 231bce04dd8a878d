/**
 * The playback state of the `useFeaturedVideo` hook.
 *
 * The hook's `VideoState` record is a datatype held in one field and replaced by
 * `.(f := v)`, as `setVideoState(prev => ({ ...prev, f }))` does. The one-second timer that
 * `handlePlay` starts is split off as the explicit step `CompletePlay`; `pendingPlays`
 * counts the timers started and not yet fired. Media times and volume are `real`.
 */
module FeaturedVideo {
  import opened Wrappers
  import opened VideoModel

  datatype VideoState = VideoState(
    isPlaying: bool,
    isLoading: bool,
    currentTime: real,
    duration: real,
    volume: real,
    isMuted: bool)

  const InitialVideoState := VideoState(false, false, 0.0, 0.0, 1.0, true)

  class FeaturedPlayer {
    /** The hook's argument; when absent, the mount effect loads the featured video. */
    const initialVideo: Option<Video>
    var video: Option<Video>
    var videoState: VideoState
    var pendingPlays: nat

    /** The first render: paused, not loading, at time 0, full volume, muted. */
    constructor(initialVideo: Option<Video>)
      ensures this.initialVideo == initialVideo && video == initialVideo
      ensures videoState == InitialVideoState
      ensures !videoState.isPlaying && !videoState.isLoading && videoState.isMuted
      ensures videoState.currentTime == 0.0 && videoState.duration == 0.0 && videoState.volume == 1.0
      ensures pendingPlays == 0
    {
      this.initialVideo := initialVideo;
      video := initialVideo;
      videoState := InitialVideoState;
      pendingPlays := 0;
    }

    /**
     * The mount effect: without an initial video, the result of loading the featured video
     * (`None` when loading fails) replaces the video when there is one.
     */
    method LoadFeaturedVideo(loaded: Option<Video>)
      modifies this`video
      ensures initialVideo.None? && loaded.Some? ==> video == loaded
      ensures initialVideo.Some? || loaded.None? ==> video == old(video)
    {
      if initialVideo.None? && loaded.Some? {
        video := loaded;
      }
    }

    method SetVideoData(newVideo: Video)
      modifies this`video
      ensures video == Some(newVideo)
    {
      video := Some(newVideo);
    }

    method SetPlaying(playing: bool)
      modifies this`videoState
      ensures videoState == old(videoState).(isPlaying := playing)
    {
      videoState := videoState.(isPlaying := playing);
    }

    method SetLoading(loading: bool)
      modifies this`videoState
      ensures videoState == old(videoState).(isLoading := loading)
    {
      videoState := videoState.(isLoading := loading);
    }

    method SetCurrentTime(time: real)
      modifies this`videoState
      ensures videoState == old(videoState).(currentTime := time)
    {
      videoState := videoState.(currentTime := time);
    }

    method SetDuration(duration: real)
      modifies this`videoState
      ensures videoState == old(videoState).(duration := duration)
    {
      videoState := videoState.(duration := duration);
    }

    method SetVolume(volume: real)
      modifies this`videoState
      ensures videoState == old(videoState).(volume := volume)
    {
      videoState := videoState.(volume := volume);
    }

    method SetMuted(muted: bool)
      modifies this`videoState
      ensures videoState == old(videoState).(isMuted := muted)
    {
      videoState := videoState.(isMuted := muted);
    }

    /** `handlePlay`: with a video, start loading and start the completion timer. */
    method HandlePlay()
      modifies this`videoState, this`pendingPlays
      ensures video.None? ==> videoState == old(videoState) && pendingPlays == old(pendingPlays)
      ensures video.Some? ==>
        videoState == old(videoState).(isLoading := true) && pendingPlays == old(pendingPlays) + 1
    {
      if video.None? {
        return;
      }
      SetLoading(true);
      pendingPlays := pendingPlays + 1;
    }

    /**
     * The timer of `handlePlay` firing: playing and no longer loading, whatever happened
     * since the timer was started.
     */
    method CompletePlay()
      requires pendingPlays > 0
      modifies this`videoState, this`pendingPlays
      ensures videoState == old(videoState).(isPlaying := true, isLoading := false)
      ensures pendingPlays == old(pendingPlays) - 1
    {
      pendingPlays := pendingPlays - 1;
      SetPlaying(true);
      SetLoading(false);
    }

    method HandlePause()
      modifies this`videoState
      ensures videoState == old(videoState).(isPlaying := false)
    {
      SetPlaying(false);
    }

    /** Selecting a video stops it at time 0; duration, volume and muting stay. */
    method HandleVideoSelect(selectedVideo: Video)
      modifies this`video, this`videoState
      ensures video == Some(selectedVideo)
      ensures videoState == old(videoState).(isPlaying := false, isLoading := false, currentTime := 0.0)
    {
      SetVideoData(selectedVideo);
      SetPlaying(false);
      SetLoading(false);
      SetCurrentTime(0.0);
    }

    method HandleVideoEnd()
      modifies this`videoState
      ensures videoState == old(videoState).(isPlaying := false, currentTime := 0.0)
    {
      SetPlaying(false);
      SetCurrentTime(0.0);
    }
  }

  /**
   * Play, then select another video before the timer fires: the stale timer still starts
   * playback of the newly selected video.
   */
  method StaleCompletion(first: Video, second: Video) returns (playing: bool, loading: bool, current: Option<Video>)
    ensures playing && !loading && current == Some(second)
  {
    var p := new FeaturedPlayer(Some(first));
    p.HandlePlay();
    p.HandleVideoSelect(second);
    p.CompletePlay();
    playing := p.videoState.isPlaying;
    loading := p.videoState.isLoading;
    current := p.video;
  }

  /** Play then pause before the timer fires: the video ends up playing anyway. */
  method PauseBeforeCompletion(v: Video) returns (playing: bool)
    ensures playing
  {
    var p := new FeaturedPlayer(Some(v));
    p.HandlePlay();
    p.HandlePause();
    p.CompletePlay();
    playing := p.videoState.isPlaying;
  }

  /** Without a video, play does nothing and starts no timer. */
  method PlayWithoutVideo() returns (state: VideoState, pending: nat)
    ensures state == InitialVideoState && pending == 0
  {
    var p := new FeaturedPlayer(None);
    p.HandlePlay();
    state := p.videoState;
    pending := p.pendingPlays;
  }
}
