/**
 * The shared audio player: one audio element (present once the page has
 * bound it), whether it is playing, and the url of the track last set.
 * What the element's own `play()` does is a parameter: whether it succeeds.
 */
module Audio {
  import opened Common

  class AudioPlayer {
    var hasElement: bool          // `audioRef` holds an element
    var src: string               // the element's `src`
    var isPlaying: bool
    var currentUrl: Option<string>
    var listening: bool           // the play/pause/ended listeners are attached
    ghost var loads: nat          // calls of the element's `load()`

    /** The state at module load: no element, not playing, no track. */
    constructor ()
      ensures !hasElement && !isPlaying && currentUrl.None? && !listening && loads == 0
    {
      hasElement, src, isPlaying, currentUrl, listening := false, "", false, None, false;
      loads := 0;
    }

    /** The page binds an element to `audioRef` (or clears it). */
    method Bind(present: bool)
      modifies this`hasElement
      ensures hasElement == present
    {
      hasElement := present;
    }

    /** `play`: without an element nothing happens; otherwise playing afterwards exactly when the element's play succeeded. */
    method Play(succeeds: bool)
      modifies this`isPlaying
      ensures !hasElement ==> isPlaying == old(isPlaying)
      ensures hasElement ==> isPlaying == succeeds
    {
      if !hasElement {
        return;
      }
      isPlaying := succeeds;
    }

    /** `pause`: without an element nothing happens; otherwise not playing afterwards. */
    method Pause()
      modifies this`isPlaying
      ensures !hasElement ==> isPlaying == old(isPlaying)
      ensures hasElement ==> !isPlaying
    {
      if !hasElement {
        return;
      }
      isPlaying := false;
    }

    /** `togglePlay`: a playing player pauses; a paused one plays if the element's play succeeds. */
    method TogglePlay(succeeds: bool)
      modifies this`isPlaying
      ensures !hasElement ==> isPlaying == old(isPlaying)
      ensures hasElement && old(isPlaying) ==> !isPlaying
      ensures hasElement && !old(isPlaying) ==> isPlaying == succeeds
    {
      if !hasElement {
        return;
      }
      if isPlaying {
        isPlaying := false;
      } else {
        isPlaying := succeeds;
      }
    }

    /**
     * `setTrack`: a new url (compared with the url last set, not with the
     * element's `src`) is set, loaded once and played; the same url is only
     * played again when it is not playing. Nothing happens without an
     * element or with an empty url.
     */
    method SetTrack(url: string, succeeds: bool)
      modifies this`src, this`currentUrl, this`isPlaying, this`loads
      ensures !hasElement || url == "" ==>
        src == old(src) && currentUrl == old(currentUrl) && isPlaying == old(isPlaying) && loads == old(loads)
      ensures hasElement && url != "" && old(currentUrl) != Some(url) ==>
        src == url && currentUrl == Some(url) && loads == old(loads) + 1 && isPlaying == succeeds
      ensures hasElement && url != "" && old(currentUrl) == Some(url) ==>
        src == old(src) && currentUrl == old(currentUrl) && loads == old(loads)
        && isPlaying == (old(isPlaying) || succeeds)
    {
      if !hasElement || url == "" {
        return;
      }
      if currentUrl != Some(url) {
        src := url;
        currentUrl := Some(url);
        loads := loads + 1;
        Play(succeeds);
      } else if !isPlaying {
        Play(succeeds);
      }
    }

    /** `setupAudioListeners`: attaches the listeners when there is an element. */
    method SetupAudioListeners()
      modifies this`listening
      ensures listening == (old(listening) || hasElement)
    {
      if !hasElement {
        return;
      }
      listening := true;
    }

    /** The element fired `play`: the listener marks the player playing. */
    method OnPlayEvent()
      modifies this`isPlaying
      ensures isPlaying == (old(isPlaying) || listening)
    {
      if listening {
        isPlaying := true;
      }
    }

    /** The element fired `pause`: the listener marks the player not playing. */
    method OnPauseEvent()
      modifies this`isPlaying
      ensures isPlaying == (old(isPlaying) && !listening)
    {
      if listening {
        isPlaying := false;
      }
    }

    /** The element fired `ended`: the listener marks the player not playing. */
    method OnEndedEvent()
      modifies this`isPlaying
      ensures isPlaying == (old(isPlaying) && !listening)
    {
      if listening {
        isPlaying := false;
      }
    }
  }

  /** Setting the same url twice in a row loads the track at most once, and exactly once for a new url. */
  method SetTrackTwiceLoadsOnce(p: AudioPlayer, url: string, first: bool, second: bool)
    requires p.hasElement && url != ""
    modifies p
    ensures p.loads == old(p.loads) + (if old(p.currentUrl) == Some(url) then 0 else 1)
    ensures p.currentUrl == Some(url) && p.src == (if old(p.currentUrl) == Some(url) then old(p.src) else url)
    ensures p.isPlaying == ((old(p.currentUrl) == Some(url) && old(p.isPlaying)) || first || second)
  {
    p.SetTrack(url, first);
    p.SetTrack(url, second);
  }

  /**
   * A new track whose playback fails is still the current track, so setting
   * it again retries playback without loading it again.
   */
  method RetryAfterFailedPlay(p: AudioPlayer, url: string, retry: bool)
    requires p.hasElement && url != "" && p.currentUrl != Some(url)
    modifies p
    ensures p.loads == old(p.loads) + 1
    ensures p.currentUrl == Some(url) && p.isPlaying == retry
  {
    p.SetTrack(url, false);
    assert !p.isPlaying && p.currentUrl == Some(url);
    p.SetTrack(url, retry);
  }
}
