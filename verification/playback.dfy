/**
 * The playback controller of the music player (src/app/page.tsx:13-152)
 * as a state machine over values: the six pieces of component state, the
 * parts of the audio element the handlers touch, and one transition per
 * user intent or element callback. Each transition describes the state
 * once the handler and the play request it issued have settled.
 */
module Playback {
  import opened Wrappers
  import opened Playlist
  import opened TimeFormat

  /**
   * What `audio.play()` came to: a promise that fulfilled, one that was
   * rejected (for example autoplay blocked), or no promise at all.
   */
  datatype PlayOutcome = Fulfilled | Rejected | NoPromise

  /** Whether a play request leaves the player playing (page.tsx:46-55, 78-85). */
  function Starts(o: PlayOutcome): (started: bool)
    ensures started <==> o == Fulfilled || o == NoPromise
  {
    o != Rejected
  }

  /** The audio element as the controller sees it. */
  datatype Media = Media(source: nat, position: real, paused: bool, duration: Num)

  /**
   * The component state: track index, playing flag, volume, the volume to
   * restore on unmute, elapsed time and duration; plus the audio element,
   * absent until the element is mounted.
   */
  datatype PlayerState = PlayerState(
    trackCount: nat,
    index: nat,
    playing: bool,
    volume: real,
    previousVolume: real,
    currentTime: real,
    duration: Num,
    media: Option<Media>)

  /** Volume at mount, and the fallback of unmute. */
  const DefaultVolume: real := 0.5

  /** Length of a skip, in seconds. */
  const SkipSeconds: real := 10.0

  /**
   * The invariant the handlers keep: the index names a track; both volumes
   * lie in the slider's range and the remembered one is strictly positive
   * and equal to the volume whenever that is audible; times are never
   * negative; and the element holds the selected track.
   */
  predicate Valid(s: PlayerState) {
    && 1 <= s.trackCount
    && s.index < s.trackCount
    && 0.0 <= s.volume <= 1.0
    && 0.0 < s.previousVolume <= 1.0
    && (0.0 < s.volume ==> s.previousVolume == s.volume)
    && 0.0 <= s.currentTime
    && (s.media.Some? ==> s.media.value.source == s.index && 0.0 <= s.media.value.position)
  }

  /** The element right after mount: first track, at its start, paused, duration unknown. */
  function MountedMedia(): Media {
    Media(0, 0.0, true, NaN)
  }

  /** The state after mount (page.tsx:13-31), with or without an element. */
  function Init(n: nat, mounted: bool): (s: PlayerState)
    requires 1 <= n
    ensures Valid(s)
    ensures s.trackCount == n && s.index == 0 && !s.playing
    ensures s.volume == s.previousVolume == DefaultVolume
    ensures s.currentTime == 0.0 && s.duration == Num(0.0)
    ensures !mounted ==> s.media.None?
    ensures mounted ==> s.media == Some(MountedMedia())
  {
    PlayerState(n, 0, false, DefaultVolume, DefaultVolume, 0.0, Num(0.0),
                 if mounted then Some(MountedMedia()) else None)
  }

  /**
   * `tocarOuPausar` (page.tsx:39-57): without an element nothing happens;
   * when playing it pauses; when paused it plays exactly when the request
   * succeeds. Only the playing flag and the element's paused flag change,
   * and afterwards they disagree.
   */
  function TogglePlay(s: PlayerState, o: PlayOutcome): (t: PlayerState)
    ensures s.media.None? ==> t == s
    ensures s.media.Some? && s.playing ==> !t.playing
    ensures s.media.Some? && !s.playing ==> (t.playing <==> Starts(o))
    ensures t.media.Some? <==> s.media.Some?
    ensures t.media.Some? ==>
      t.media.value == s.media.value.(paused := t.media.value.paused) && t.media.value.paused == !t.playing
    ensures t == s.(playing := t.playing, media := t.media)
    ensures Valid(s) ==> Valid(t)
  {
    match s.media
    case None => s
    case Some(m) =>
      if s.playing then s.(playing := false, media := Some(m.(paused := true)))
      else s.(playing := Starts(o), media := Some(m.(paused := !Starts(o))))
  }

  /**
   * `tocarMusica(k)` (page.tsx:59-86). Without an element only the index
   * moves. Re-selecting the track that is playing changes nothing. Any
   * other selection loads track `k` from its start with its duration
   * unknown, resets the shown time and duration to 0 and plays, the
   * playing flag ending as the request's outcome; the volumes stay.
   */
  function SelectTrack(s: PlayerState, k: nat, o: PlayOutcome): (t: PlayerState)
    requires k < s.trackCount
    ensures t.index == k
    ensures s.media.None? ==> t == s.(index := k)
    ensures s.media.Some? && k == s.index && s.playing ==> t == s
    ensures s.media.Some? && (k != s.index || !s.playing) ==>
      && t.playing == Starts(o)
      && t.currentTime == 0.0
      && t.duration == Num(0.0)
      && t.media == Some(Media(k, 0.0, !Starts(o), NaN))
    ensures t.trackCount == s.trackCount && t.volume == s.volume && t.previousVolume == s.previousVolume
    ensures Valid(s) ==> Valid(t)
  {
    match s.media
    case None => s.(index := k)
    case Some(m) =>
      if k == s.index && s.playing then s
      else
        s.(index := k, playing := Starts(o), currentTime := 0.0, duration := Num(0.0),
           media := Some(Media(k, 0.0, !Starts(o), NaN)))
  }

  /**
   * `proxima` (page.tsx:88-91), also run when a track ends (page.tsx:167):
   * select the next track round the circle. With a single track that is
   * playing, the index does not move and nothing happens.
   */
  function NextTrack(s: PlayerState, o: PlayOutcome): (t: PlayerState)
    requires s.index < s.trackCount
    ensures t.index == Next(s.index, s.trackCount)
    ensures s.media.None? ==> t == s.(index := t.index)
    ensures s.media.Some? && (1 < s.trackCount || !s.playing) ==>
      && t.currentTime == 0.0 && t.duration == Num(0.0) && t.playing == Starts(o)
      && t.media == Some(Media(t.index, 0.0, !Starts(o), NaN))
    ensures s.media.Some? && s.trackCount == 1 && s.playing ==> t == s
    ensures t.trackCount == s.trackCount && t.volume == s.volume && t.previousVolume == s.previousVolume
    ensures Valid(s) ==> Valid(t)
  {
    SelectTrack(s, Next(s.index, s.trackCount), o)
  }

  /** `anterior` (page.tsx:93-96): select the previous track round the circle. */
  function PreviousTrack(s: PlayerState, o: PlayOutcome): (t: PlayerState)
    requires s.index < s.trackCount
    ensures t.index == Previous(s.index, s.trackCount)
    ensures s.media.None? ==> t == s.(index := t.index)
    ensures s.media.Some? && (1 < s.trackCount || !s.playing) ==>
      && t.currentTime == 0.0 && t.duration == Num(0.0) && t.playing == Starts(o)
      && t.media == Some(Media(t.index, 0.0, !Starts(o), NaN))
    ensures s.media.Some? && s.trackCount == 1 && s.playing ==> t == s
    ensures t.trackCount == s.trackCount && t.volume == s.volume && t.previousVolume == s.previousVolume
    ensures Valid(s) ==> Valid(t)
  {
    SelectTrack(s, Previous(s.index, s.trackCount), o)
  }

  /**
   * `mudarVolume` (page.tsx:98-104): the volume becomes `v`; an audible `v`
   * is also remembered for unmute, a silent one leaves the memory alone.
   * Nothing else changes.
   */
  function SetVolume(s: PlayerState, v: real): (t: PlayerState)
    ensures t.volume == v
    ensures 0.0 < v ==> t.previousVolume == v
    ensures v <= 0.0 ==> t.previousVolume == s.previousVolume
    ensures t == s.(volume := t.volume, previousVolume := t.previousVolume)
    ensures Valid(s) && 0.0 <= v <= 1.0 ==> Valid(t)
  {
    if 0.0 < v then s.(volume := v, previousVolume := v) else s.(volume := v)
  }

  /**
   * `mutarDesmutar` (page.tsx:106-113): an audible volume is remembered and
   * silenced; a silent one is restored to the remembered volume, or to 0.5
   * if none is remembered. Either way the player ends audible or silent,
   * the opposite of before; nothing but the two volumes changes.
   */
  function ToggleMute(s: PlayerState): (t: PlayerState)
    ensures 0.0 < s.volume ==> t.volume == 0.0 && t.previousVolume == s.volume
    ensures s.volume <= 0.0 ==> 0.0 < t.volume && t.previousVolume == s.previousVolume
    ensures s.volume <= 0.0 && 0.0 < s.previousVolume ==> t.volume == s.previousVolume
    ensures s.volume <= 0.0 && s.previousVolume <= 0.0 ==> t.volume == DefaultVolume
    ensures t == s.(volume := t.volume, previousVolume := t.previousVolume)
    ensures Valid(s) ==> Valid(t)
  {
    if 0.0 < s.volume then s.(previousVolume := s.volume, volume := 0.0)
    else s.(volume := if 0.0 < s.previousVolume then s.previousVolume else DefaultVolume)
  }

  /**
   * `lidarComMetadados` (page.tsx:122-126): the shown duration becomes the
   * element's, which may be NaN.
   */
  function MetadataLoaded(s: PlayerState): (t: PlayerState)
    ensures s.media.None? ==> t == s
    ensures s.media.Some? ==> t == s.(duration := s.media.value.duration)
    ensures Valid(s) ==> Valid(t)
  {
    match s.media
    case None => s
    case Some(m) => s.(duration := m.duration)
  }

  /**
   * `lidarComTempoAtual` (page.tsx:128-132): the shown time catches up with
   * the element's position.
   */
  function TimeUpdate(s: PlayerState): (t: PlayerState)
    ensures s.media.None? ==> t == s
    ensures s.media.Some? ==> t == s.(currentTime := s.media.value.position)
    ensures Valid(s) ==> Valid(t)
  {
    match s.media
    case None => s
    case Some(m) => s.(currentTime := m.position)
  }

  /**
   * `mudarTempo` (page.tsx:134-140): the element jumps to `time` and the
   * shown time shows the same `time` at once.
   */
  function Seek(s: PlayerState, time: real): (t: PlayerState)
    ensures s.media.None? ==> t == s
    ensures s.media.Some? ==>
      t.media.Some? && t.media.value.position == time && t.currentTime == time
    ensures s.media.Some? ==>
      t == s.(currentTime := time, media := Some(s.media.value.(position := time)))
    ensures Valid(s) && 0.0 <= time ==> Valid(t)
  {
    match s.media
    case None => s
    case Some(m) => s.(currentTime := time, media := Some(m.(position := time)))
  }

  /**
   * `retroceder10s` (page.tsx:142-146): the element goes back ten seconds,
   * stopping at the start; its position is never negative and never moves
   * forward. The shown time follows on the next time update.
   */
  function SkipBack(s: PlayerState): (t: PlayerState)
    ensures s.media.None? ==> t == s
    ensures s.media.Some? ==> t.media.Some?
    ensures s.media.Some? ==>
      var p, q := s.media.value.position, t.media.value.position;
      && 0.0 <= q
      && (0.0 <= p ==> q <= p)
      && (SkipSeconds <= p ==> q == p - SkipSeconds)
      && (p < SkipSeconds ==> q == 0.0)
    ensures s.media.Some? ==> t == s.(media := t.media)
    ensures s.media.Some? ==> t.media.value == s.media.value.(position := t.media.value.position)
    ensures Valid(s) ==> Valid(t)
  {
    match s.media
    case None => s
    case Some(m) =>
      s.(media := Some(m.(position := if m.position - SkipSeconds < 0.0 then 0.0 else m.position - SkipSeconds)))
  }

  /**
   * `avancar10s` (page.tsx:148-152): the element goes forward ten seconds,
   * with no clamp at the end of the track.
   */
  function SkipForward(s: PlayerState): (t: PlayerState)
    ensures s.media.None? ==> t == s
    ensures s.media.Some? ==>
      t.media.Some? && t.media.value.position - s.media.value.position == SkipSeconds
    ensures s.media.Some? ==> t.media.value == s.media.value.(position := t.media.value.position)
    ensures t == s.(media := t.media)
    ensures Valid(s) ==> Valid(t)
  {
    match s.media
    case None => s
    case Some(m) => s.(media := Some(m.(position := m.position + SkipSeconds)))
  }

  /**
   * Mute then unmute, or unmute then mute, gives back the state it started
   * from; in particular unmute restores exactly the volume that was muted.
   */
  lemma ToggleMuteTwice(s: PlayerState)
    ensures 0.0 < s.volume ==> ToggleMute(ToggleMute(s)).volume == s.volume
    ensures Valid(s) ==> ToggleMute(ToggleMute(s)) == s
  {
  }

  /** Skipping forward then back returns the element to where it was. */
  lemma SkipForwardThenBack(s: PlayerState)
    requires Valid(s)
    ensures SkipBack(SkipForward(s)) == s
  {
  }

  /** Skipping back then forward returns to where it was unless the start clamp applied. */
  lemma SkipBackThenForward(s: PlayerState)
    requires s.media.Some?
    ensures (SkipSeconds <= s.media.value.position) <==> SkipForward(SkipBack(s)) == s
  {
    if SkipForward(SkipBack(s)) == s {
      assert SkipForward(SkipBack(s)).media.value.position == s.media.value.position;
    }
  }

  /**
   * The browser's side of `loadedmetadata`: the element has read the
   * track's header and now reports the duration `d`.
   */
  function ElementDuration(s: PlayerState, d: Num): PlayerState {
    match s.media
    case None => s
    case Some(m) => s.(media := Some(m.(duration := d)))
  }

  /** The browser's side of `timeupdate`: playback has carried the element to `p`. */
  function ElementPosition(s: PlayerState, p: real): PlayerState {
    match s.media
    case None => s
    case Some(m) => s.(media := Some(m.(position := p)))
  }

  /**
   * The inputs the page can deliver to the controller, one per handler. The
   * two element callbacks carry what the browser reports: the duration it
   * read from the track and the position playback has reached.
   */
  datatype Event =
    | PlayPause(outcome: PlayOutcome)
    | Choose(track: nat, outcome: PlayOutcome)
    | NextPressed(outcome: PlayOutcome)
    | PreviousPressed(outcome: PlayOutcome)
    | Ended(outcome: PlayOutcome)
    | VolumeInput(volume: real)
    | MuteClicked
    | MetadataLoadedEvent(reported: Num)
    | TimeUpdateEvent(position: real)
    | SeekInput(time: real)
    | BackTen
    | ForwardTen

  /**
   * What the page guarantees of an event: playlist items name a track, and
   * the range inputs deliver values in their ranges (volume 0 to 1, time
   * from 0); a playback position is never negative.
   */
  predicate Admissible(n: nat, e: Event) {
    match e
    case Choose(k, _) => k < n
    case VolumeInput(v) => 0.0 <= v <= 1.0
    case SeekInput(time) => 0.0 <= time
    case TimeUpdateEvent(p) => 0.0 <= p
    case _ => true
  }

  predicate AllAdmissible(n: nat, es: seq<Event>) {
    forall i :: 0 <= i < |es| ==> Admissible(n, es[i])
  }

  /** One event handled by its handler. */
  function Step(s: PlayerState, e: Event): (t: PlayerState)
    requires Valid(s) && Admissible(s.trackCount, e)
    ensures Valid(t) && t.trackCount == s.trackCount
  {
    match e
    case PlayPause(o) => TogglePlay(s, o)
    case Choose(k, o) => SelectTrack(s, k, o)
    case NextPressed(o) => NextTrack(s, o)
    case PreviousPressed(o) => PreviousTrack(s, o)
    case Ended(o) => NextTrack(s, o)
    case VolumeInput(v) => SetVolume(s, v)
    case MuteClicked => ToggleMute(s)
    case MetadataLoadedEvent(d) => MetadataLoaded(ElementDuration(s, d))
    case TimeUpdateEvent(p) => TimeUpdate(ElementPosition(s, p))
    case SeekInput(time) => Seek(s, time)
    case BackTen => SkipBack(s)
    case ForwardTen => SkipForward(s)
  }

  /**
   * Once the element is mounted, the duration the browser reports is the
   * one the player shows, whether NaN or a number, and the element keeps it.
   */
  lemma MetadataShowsReportedDuration(s: PlayerState, d: Num)
    requires Valid(s) && s.media.Some?
    ensures Step(s, MetadataLoadedEvent(d)).duration == d
    ensures Step(s, MetadataLoadedEvent(d)).media == Some(s.media.value.(duration := d))
    ensures Step(s, MetadataLoadedEvent(d)) == s.(duration := d, media := Some(s.media.value.(duration := d)))
  {
  }

  /**
   * Once the element is mounted, a time update shows the position playback
   * reached; only the shown time and the element's position change.
   */
  lemma TimeUpdateShowsPosition(s: PlayerState, p: real)
    requires Valid(s) && s.media.Some? && 0.0 <= p
    ensures Step(s, TimeUpdateEvent(p)).currentTime == p
    ensures Step(s, TimeUpdateEvent(p)) == s.(currentTime := p, media := Some(s.media.value.(position := p)))
  {
  }

  /**
   * A sequence of events handled in order. Every state it passes through
   * keeps the invariant; in particular the remembered volume stays strictly
   * positive and the index stays on the playlist.
   */
  function Run(s: PlayerState, es: seq<Event>): (t: PlayerState)
    requires Valid(s) && AllAdmissible(s.trackCount, es)
    ensures Valid(t) && t.trackCount == s.trackCount
    decreases |es|
  {
    if es == [] then s
    else Run(Step(s, es[0]), es[1..])
  }

  /**
   * In every state reachable from mount, unmute restores the remembered
   * volume itself: the 0.5 fallback of page.tsx:111 is never taken.
   */
  lemma {:induction false} UnmuteNeverFallsBack(n: nat, mounted: bool, es: seq<Event>)
    requires 1 <= n && AllAdmissible(n, es)
    ensures
      var s := Run(Init(n, mounted), es);
      0.0 < s.previousVolume && (s.volume == 0.0 ==> ToggleMute(s).volume == s.previousVolume)
  {
  }

  /** `proxima` pressed `k` times in a row, every play request ending as `o`. */
  function RepeatNext(s: PlayerState, k: nat, o: PlayOutcome): (t: PlayerState)
    requires Valid(s)
    ensures Valid(t) && t.trackCount == s.trackCount
    ensures t.index == Advance(s.index, k, s.trackCount)
    decreases k
  {
    if k == 0 then s else NextTrack(RepeatNext(s, k - 1, o), o)
  }

  /** Pressing next once per track comes back to the track it started on. */
  lemma {:induction false} NextAroundThePlaylist(s: PlayerState, o: PlayOutcome)
    requires Valid(s)
    ensures RepeatNext(s, s.trackCount, o).index == s.index
  {
    AdvanceFullCycle(s.index, s.trackCount);
  }

  /** Previous undoes next on the index, and next undoes previous. */
  lemma NextPreviousInverse(s: PlayerState, o: PlayOutcome, o': PlayOutcome)
    requires Valid(s)
    ensures PreviousTrack(NextTrack(s, o), o').index == s.index
    ensures NextTrack(PreviousTrack(s, o), o').index == s.index
  {
    PreviousAfterNext(s.index, s.trackCount);
    NextAfterPrevious(s.index, s.trackCount);
  }

  /** Worked scenarios on the three-track playlist. */
  lemma Scenarios(o: PlayOutcome)
    ensures PreviousTrack(Init(TrackCount, true), o).index == 2
    ensures NextTrack(PreviousTrack(Init(TrackCount, true), o), o).index == 0
    ensures ToggleMute(SetVolume(Init(TrackCount, true), 0.0)).volume == 0.5
    ensures !TogglePlay(Init(TrackCount, true), Rejected).playing
    ensures
      var s := SelectTrack(TogglePlay(Init(TrackCount, true), Fulfilled), 1, o);
      s.index == 1 && s.currentTime == 0.0 && s.duration == Num(0.0)
    ensures
      var s := Seek(Init(TrackCount, true), 3.0);
      SkipBack(s).media.value.position == 0.0
    ensures
      var s := Run(Init(TrackCount, true), [Choose(1, Fulfilled), MetadataLoadedEvent(Num(180.0))]);
      s.index == 1 && s.playing && s.duration == Num(180.0)
  {
  }
}
