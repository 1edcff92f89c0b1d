/**
 * The player component as it runs: the component's state held in fields
 * that each handler updates step by step through its setters, and the
 * audio element as an object the handlers change in place
 * (src/app/page.tsx:13-152). Every handler is proved to end in the state
 * the matching transition of `Playback` describes.
 */
module Controller {
  import opened Wrappers
  import opened Playlist
  import opened TimeFormat
  import Playback

  /** The audio element, reduced to what the handlers read and write. */
  class AudioElement {
    var source: nat
    var position: real
    var paused: bool
    var duration: Num

    /** The element as rendered at mount: first track, at its start, paused. */
    constructor ()
      ensures Snapshot() == Playback.MountedMedia()
    {
      source, position, paused, duration := 0, 0.0, true, NaN;
    }

    function Snapshot(): Playback.Media
      reads this
    {
      Playback.Media(source, position, paused, duration)
    }

    /** `pause()`. */
    method Pause()
      modifies this
      ensures Snapshot() == old(Snapshot()).(paused := true)
    {
      paused := true;
    }

    /** `play()`, with its outcome given: the element plays unless the request is rejected. */
    method Play(o: Playback.PlayOutcome) returns (started: bool)
      modifies this
      ensures started == Playback.Starts(o)
      ensures Snapshot() == old(Snapshot()).(paused := !started)
    {
      started := o != Playback.Rejected;
      paused := !started;
    }

    /**
     * Assigning `src` then `load()`: the media load algorithm stops playback
     * and puts the new track at its start, duration unknown.
     */
    method Load(k: nat)
      modifies this
      ensures Snapshot() == Playback.Media(k, 0.0, true, NaN)
    {
      source := k;
      position := 0.0;
      paused := true;
      duration := NaN;
    }

    /** Assigning `currentTime`. */
    method SetPosition(p: real)
      modifies this
      ensures Snapshot() == old(Snapshot()).(position := p)
    {
      position := p;
    }
  }

  class Player {
    const trackCount: nat
    /** `audioRef.current`: null when the element is not mounted. */
    const audio: AudioElement?
    var index: nat
    var playing: bool
    var volume: real
    var previousVolume: real
    var currentTime: real
    var duration: Num

    ghost function State(): Playback.PlayerState
      reads this, audio
    {
      Playback.PlayerState(trackCount, index, playing, volume, previousVolume, currentTime, duration,
                           if audio == null then None else Some(audio.Snapshot()))
    }

    ghost predicate Valid()
      reads this, audio
    {
      Playback.Valid(State())
    }

    /** Mount (page.tsx:13-31) over a playlist of `n` tracks. */
    constructor (n: nat, mounted: bool)
      requires 1 <= n
      ensures State() == Playback.Init(n, mounted) && Valid()
      ensures audio != null ==> fresh(audio)
    {
      trackCount := n;
      if mounted {
        audio := new AudioElement();
      } else {
        audio := null;
      }
      index, playing := 0, false;
      volume, previousVolume := Playback.DefaultVolume, Playback.DefaultVolume;
      currentTime, duration := 0.0, Num(0.0);
    }

    /** `tocarOuPausar` (page.tsx:39-57). */
    method TogglePlay(o: Playback.PlayOutcome)
      requires Valid()
      modifies this, audio
      ensures State() == Playback.TogglePlay(old(State()), o) && Valid()
    {
      if audio == null {
        return;
      }
      if playing {
        audio.Pause();
        playing := false;
      } else {
        var started := audio.Play(o);
        playing := started;
      }
    }

    /** `tocarMusica` (page.tsx:59-86). */
    method SelectTrack(k: nat, o: Playback.PlayOutcome)
      requires Valid() && k < trackCount
      modifies this, audio
      ensures State() == Playback.SelectTrack(old(State()), k, o) && Valid()
    {
      if audio == null {
        index := k;
        return;
      }
      if k == index && playing {
        return;
      }
      index := k;
      playing := false;
      currentTime := 0.0;
      duration := Num(0.0);
      audio.Load(k);
      var started := audio.Play(o);
      playing := started;
    }

    /** `proxima` (page.tsx:88-91), also the element's `onEnded` handler. */
    method NextTrack(o: Playback.PlayOutcome)
      requires Valid()
      modifies this, audio
      ensures State() == Playback.NextTrack(old(State()), o) && Valid()
    {
      var k := Next(index, trackCount);
      SelectTrack(k, o);
    }

    /** `anterior` (page.tsx:93-96). */
    method PreviousTrack(o: Playback.PlayOutcome)
      requires Valid()
      modifies this, audio
      ensures State() == Playback.PreviousTrack(old(State()), o) && Valid()
    {
      var k := Previous(index, trackCount);
      SelectTrack(k, o);
    }

    /** `mudarVolume` (page.tsx:98-104), with the slider's value already parsed. */
    method SetVolume(v: real)
      requires Valid() && 0.0 <= v <= 1.0
      modifies this
      ensures State() == Playback.SetVolume(old(State()), v) && Valid()
    {
      volume := v;
      if 0.0 < v {
        previousVolume := v;
      }
    }

    /** `mutarDesmutar` (page.tsx:106-113). */
    method ToggleMute()
      requires Valid()
      modifies this
      ensures State() == Playback.ToggleMute(old(State())) && Valid()
    {
      if 0.0 < volume {
        previousVolume := volume;
        volume := 0.0;
      } else {
        volume := if 0.0 < previousVolume then previousVolume else Playback.DefaultVolume;
      }
    }

    /** `lidarComMetadados` (page.tsx:122-126). */
    method MetadataLoaded()
      requires Valid()
      modifies this
      ensures State() == Playback.MetadataLoaded(old(State())) && Valid()
    {
      if audio != null {
        duration := audio.duration;
      }
    }

    /** `lidarComTempoAtual` (page.tsx:128-132). */
    method TimeUpdate()
      requires Valid()
      modifies this
      ensures State() == Playback.TimeUpdate(old(State())) && Valid()
    {
      if audio != null {
        currentTime := audio.position;
      }
    }

    /** `mudarTempo` (page.tsx:134-140), with the slider's value already parsed. */
    method Seek(time: real)
      requires Valid() && 0.0 <= time
      modifies this, audio
      ensures State() == Playback.Seek(old(State()), time) && Valid()
    {
      if audio != null {
        audio.SetPosition(time);
        currentTime := time;
      }
    }

    /** `retroceder10s` (page.tsx:142-146). */
    method SkipBack()
      requires Valid()
      modifies audio
      ensures State() == Playback.SkipBack(old(State())) && Valid()
    {
      if audio != null {
        var p := audio.position - Playback.SkipSeconds;
        audio.SetPosition(if p < 0.0 then 0.0 else p);
      }
    }

    /** `avancar10s` (page.tsx:148-152). */
    method SkipForward()
      requires Valid()
      modifies audio
      ensures State() == Playback.SkipForward(old(State())) && Valid()
    {
      if audio != null {
        audio.SetPosition(audio.position + Playback.SkipSeconds);
      }
    }
  }
}
