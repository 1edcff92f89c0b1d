# Music player playback controller, in Dafny

This project models the playback controller of a browser music player
(`src/app/page.tsx`). The player is one React component. It holds six
pieces of state: the track index, the playing flag, the volume, the volume
to restore on unmute, the elapsed time and the duration. Its handlers turn
user intents and callbacks from the audio element into updates of that
state and of the element itself. The playlist is a fixed circle of three
tracks.

The model has five modules:

- `Wrappers` (`wrappers.dfy`): the `Option` type the others share.
- `Playlist` (`playlist.dfy`): the circular index arithmetic of `proxima`
  and `anterior`, for any playlist length `n >= 1`. `TrackCount` is the
  player's 3.
- `TimeFormat` (`time_format.dfy`): the pure formatter `formatarTempo`. It
  spells out the JavaScript it relies on: `Math.floor`, the truncating `%`,
  `toString` of a non-negative integer and `padStart`. A NaN input is an
  explicit `NaN` value of the datatype `Num`. `ParseClock` reads a
  formatted time back into minutes and seconds, and the lemmas prove that
  every output parses and counts the input's whole seconds.
- `Playback` (`playback.dfy`): the controller as a state machine over
  values (`PlayerState`). There is one transition per handler, an invariant
  `Valid`, and `Run`, which handles any sequence of page events.
- `Controller` (`controller.dfy`): the component as it runs. `Player` is a
  class whose fields are the six state variables. Its methods update them
  step by step, as the handlers do through their setters. `AudioElement` is
  the audio element, which the handlers change in place (`src`/`load()`,
  `play()`, `pause()`, `currentTime`). Each method is proved to end in the
  state that the matching `Playback` transition describes.

The browser's answer to a play request is an input to the model: the
promise fulfils, the promise is rejected, or there is no promise. A
missing promise counts as success (page.tsx:53-55). Volumes and times are
Dafny `real`s. The invariant `Valid` shows that, whenever the volume is
audible, the remembered volume equals it. So the remembered volume never
leaves (0, 1], and the 0.5 fallback of unmute (page.tsx:111) is never
taken from a reachable state. Muting and then unmuting gives back the whole
state.

Some behaviour of the code is worth stating outright, because a reader
might expect otherwise:

- `mudarVolume` does not clamp its input; only the slider's range limits
  it (page.tsx:98-104).
- Nothing keeps current time ≤ duration; `avancar10s` has no upper clamp
  (page.tsx:148-152).
- `lidarComMetadados` stores the element's duration, NaN included
  (page.tsx:124). The model keeps that NaN in `duration`.
- `tocarMusica` plays right after `load()`, without waiting for the track
  to be ready, and skips re-selecting the track that is playing
  (page.tsx:65-85).

## Model

| member | source | states |
|---|---|---|
| `Playlist.Next` | src/app/page.tsx:88-91 | the next index is on the playlist; it is `i + 1`, except from the last track, where it wraps to 0 |
| `Playlist.Previous` | src/app/page.tsx:93-96 | the previous index is on the playlist; it is `i - 1`, except from 0, where it wraps to `n - 1` |
| `Playlist.PreviousAfterNext` | src/app/page.tsx:88-96 | previous after next returns to the original index |
| `Playlist.NextAfterPrevious` | src/app/page.tsx:88-96 | next after previous returns to the original index |
| `Playlist.AdvanceIsModular` | src/app/page.tsx:88-91 | `k` presses of next from `i` land on `(i + k) mod n` |
| `Playlist.AdvanceFullCycle` | src/app/page.tsx:88-91 | `n` presses of next on an `n`-track playlist come back to the start |
| `TimeFormat.FormatTime` | src/app/page.tsx:115-120 | NaN and negative inputs give `"00:00"` |
| `TimeFormat.Trunc` | src/app/page.tsx:118 | the quotient JavaScript's `%` uses is rounded toward zero: the largest integer at most `x` for `x ≥ 0`, the smallest at least `x` for `x ≤ 0` |
| `TimeFormat.JsRem` | src/app/page.tsx:118 | JavaScript's `x % y` for a positive `y` has the sign of `x` and magnitude below `y` |
| `TimeFormat.WholeMinutes` | src/app/page.tsx:117 | `Math.floor(s / 60)` is the number of whole minutes in `⌊s⌋` |
| `TimeFormat.WholeSeconds` | src/app/page.tsx:118 | `Math.floor(s % 60)` is below 60, and minutes·60 + seconds = `⌊s⌋` |
| `TimeFormat.MinuteRemainder` | src/app/page.tsx:118 | JavaScript's `s % 60` has the sign of `s` and magnitude below 60; for `s ≥ 0` it is `s` minus the whole minutes |
| `TimeFormat.ToDecimal` | src/app/page.tsx:119 | `toString` of a non-negative integer is a non-empty digit string without leading zeros that reads back as the number; numbers below 100 take at most two digits |
| `TimeFormat.PadStart` | src/app/page.tsx:119 | `padStart(width, fill)` is `width` long when the string is shorter, the string unchanged otherwise, ends with the string and is `fill` in front of it |
| `TimeFormat.Field` | src/app/page.tsx:119 | `padStart(2, '0')` of `toString` has at least two digits, exactly two below 100, and denotes the same number; a one-digit number gets a single `'0'` in front, and from 10 up the field is `toString` itself, with no zeros added |
| `TimeFormat.Clock` | src/app/page.tsx:119 | the template literal is the minutes field, a colon, then the seconds field, each part pinned by position; the colon is third from the end when the seconds are below 100; both fields below 100 give five characters |
| `TimeFormat.ClockRoundTrip` | src/app/page.tsx:119 | two fields joined by `:` parse back as the same minutes and seconds |
| `TimeFormat.FormatTimeParses` | src/app/page.tsx:115-120 | every output is two digit fields around a colon (minutes at least 2 digits, seconds exactly 2); for `s ≥ 0` the seconds are in 0..59 and minutes·60 + seconds = `⌊s⌋`; the sentinel reads as 0:0 |
| `TimeFormat.FormatWholeSeconds` | src/app/page.tsx:115-120 | for a whole number of seconds `t`, the fields are `t div 60` and `t mod 60` |
| `TimeFormat.FormatTimeSentinelExamples` | src/app/page.tsx:116 | NaN and -5 both give `"00:00"` |
| `TimeFormat.FormatTimeExample65` | src/app/page.tsx:115-120 | 65 seconds give `"01:05"` |
| `TimeFormat.FormatTimeExample3661` | src/app/page.tsx:115-120 | 3661 seconds give `"61:01"`: minutes are not folded into hours |
| `Playback.Init` | src/app/page.tsx:13-31 | the mounted state is valid: index 0, paused, both volumes 0.5, shown time and duration 0; with an element, the element holds track 0 at position 0, paused, duration unknown; without one, there is no element |
| `Playback.Starts` | src/app/page.tsx:46-55 | a play request leaves the player playing exactly when its promise fulfils or the browser returns no promise |
| `Playback.TogglePlay` | src/app/page.tsx:39-57 | with no element nothing changes; playing always becomes paused; paused becomes playing exactly when the play request succeeds or returns no promise; only the playing flag and the element's paused flag change, and they end opposite; the invariant is kept |
| `Playback.SelectTrack` | src/app/page.tsx:59-86 | the index becomes `k`; with no element nothing else changes; re-selecting the playing track changes nothing; any other selection loads `k` at position 0 with its duration unknown, resets the shown time and duration to 0 and leaves the playing flag equal to the play outcome; the volumes never change; the invariant is kept |
| `Playback.NextTrack` | src/app/page.tsx:88-91 | the index becomes the circular next one; with no element only the index changes; otherwise, unless a one-track playlist is already playing (then nothing changes), the element loads the new track at position 0 with its duration unknown, the shown time and duration reset to 0 and the playing flag follows the play outcome; the volumes never change; the invariant is kept |
| `Playback.PreviousTrack` | src/app/page.tsx:93-96 | the index becomes the circular previous one; with no element only the index changes; otherwise, unless a one-track playlist is already playing (then nothing changes), the element loads the new track at position 0 with its duration unknown, the shown time and duration reset to 0 and the playing flag follows the play outcome; the volumes never change; the invariant is kept |
| `Playback.SetVolume` | src/app/page.tsx:98-104 | the volume becomes `v`; the remembered volume becomes `v` only when `v > 0`; nothing else changes; a slider value keeps the invariant |
| `Playback.ToggleMute` | src/app/page.tsx:106-113 | an audible volume is remembered and goes to 0; a silent volume becomes audible again: the remembered one when that is positive, otherwise the 0.5 fallback; only the volumes change; the invariant is kept |
| `Playback.MetadataLoaded` | src/app/page.tsx:122-126 | the shown duration becomes the element's, NaN included |
| `Playback.TimeUpdate` | src/app/page.tsx:128-132 | the shown time becomes the element's position |
| `Playback.MetadataShowsReportedDuration` | src/app/page.tsx:122-126 | once the element is mounted, the duration the browser reports, NaN or a number, is the one the player shows; nothing else changes |
| `Playback.TimeUpdateShowsPosition` | src/app/page.tsx:128-132 | once the element is mounted, a time update shows the position playback reached; only the shown time and the element's position change |
| `Playback.Seek` | src/app/page.tsx:134-140 | the element's position and the shown time both become `t`; nothing else changes |
| `Playback.SkipBack` | src/app/page.tsx:142-146 | the position becomes max(pos − 10, 0): never negative, never ahead of where it was; only the position changes |
| `Playback.SkipForward` | src/app/page.tsx:148-152 | the position grows by exactly 10, with no upper clamp; only the position changes |
| `Playback.ToggleMuteTwice` | src/app/page.tsx:106-113 | mute then unmute restores exactly the pre-mute volume; on a valid state, toggling mute twice restores the whole state |
| `Playback.SkipForwardThenBack` | src/app/page.tsx:142-152 | skipping forward then back returns the element to where it was |
| `Playback.SkipBackThenForward` | src/app/page.tsx:142-152 | skipping back then forward returns to the same place exactly when the position was at least 10 |
| `Playback.Step` | src/app/page.tsx:39-152 | every handler keeps the invariant and the playlist length |
| `Playback.Run` | src/app/page.tsx:39-152 | any sequence of page events keeps the invariant: the index stays on the playlist and the remembered volume stays in (0, 1] |
| `Playback.UnmuteNeverFallsBack` | src/app/page.tsx:106-113 | in every state reachable from mount, the remembered volume is positive and unmute restores it, so the 0.5 fallback is never used |
| `Playback.RepeatNext` | src/app/page.tsx:88-91 | `k` presses of next move the index exactly as `k` steps round the circle |
| `Playback.NextAroundThePlaylist` | src/app/page.tsx:88-91 | pressing next once per track returns to the starting track |
| `Playback.NextPreviousInverse` | src/app/page.tsx:88-96 | previous undoes next and next undoes previous on the index |
| `Playback.Scenarios` | src/app/page.tsx:39-146 | on the three-track list: previous from 0 gives 2 and next from 2 gives 0; volume 0 then unmute gives 0.5; a rejected play stays paused; selecting track 1 while track 0 plays resets time and duration to 0; skipping back from 3 s gives 0; choosing track 1 and then loading metadata of 180 s shows track 1 playing with duration 180 |
| `Controller.AudioElement.constructor` | src/app/page.tsx:162-168 | the element at mount holds track 0 at position 0, paused, with its duration unknown |
| `Controller.AudioElement.Pause` | src/app/page.tsx:43 | `pause()` only sets the paused flag |
| `Controller.AudioElement.Play` | src/app/page.tsx:46-55 | `play()` starts the element exactly when the request is not rejected, and changes only the paused flag |
| `Controller.AudioElement.Load` | src/app/page.tsx:74-75 | assigning `src` and `load()` puts the new track at position 0, paused, with its duration unknown, whatever the element was doing before |
| `Controller.AudioElement.SetPosition` | src/app/page.tsx:137 | assigning `currentTime` changes only the position |
| `Controller.Player.constructor` | src/app/page.tsx:13-31 | the new player is in the mounted state `Playback.Init` |
| `Controller.Player.TogglePlay` | src/app/page.tsx:39-57 | the fields and the element end as `Playback.TogglePlay` says, and the invariant is kept |
| `Controller.Player.SelectTrack` | src/app/page.tsx:59-86 | the fields and the element end as `Playback.SelectTrack` says, and the invariant is kept |
| `Controller.Player.NextTrack` | src/app/page.tsx:88-91 | ends as `Playback.NextTrack` says |
| `Controller.Player.PreviousTrack` | src/app/page.tsx:93-96 | ends as `Playback.PreviousTrack` says |
| `Controller.Player.SetVolume` | src/app/page.tsx:98-104 | ends as `Playback.SetVolume` says |
| `Controller.Player.ToggleMute` | src/app/page.tsx:106-113 | ends as `Playback.ToggleMute` says |
| `Controller.Player.MetadataLoaded` | src/app/page.tsx:122-126 | ends as `Playback.MetadataLoaded` says |
| `Controller.Player.TimeUpdate` | src/app/page.tsx:128-132 | ends as `Playback.TimeUpdate` says |
| `Controller.Player.Seek` | src/app/page.tsx:134-140 | ends as `Playback.Seek` says |
| `Controller.Player.SkipBack` | src/app/page.tsx:142-146 | ends as `Playback.SkipBack` says |
| `Controller.Player.SkipForward` | src/app/page.tsx:148-152 | ends as `Playback.SkipForward` says |

## Left out

- Rendering (page.tsx:154-244) is not modelled. This covers the markup, CSS, cover images, the playlist list, the disabled state of the seek bar and the volume percentage.
- The element's volume is not modelled. The effect that copies the volume to the element (page.tsx:33-37) and the writes at page.tsx:28 and page.tsx:76 are browser plumbing.
- The play request's promise is reduced to its final outcome, an input to each transition. The transient `setTocando(false)` at page.tsx:70 is therefore overwritten. A stale resolution that arrives after a newer track switch is event-loop concurrency and is not modelled.
- `parseFloat` of the slider values (page.tsx:99, 136) is left out. The handlers take the parsed number.
- Controller.Player.SetVolume: accepts only values in [0, 1], because the volume slider (page.tsx:215-222) cannot produce others. The handler itself would take any number. `Playback.SetVolume` has no such requirement and keeps the invariant only for slider values.
- Controller.Player.Seek: accepts only times of at least 0, because the seek slider starts at 0 (page.tsx:191). `Playback.Seek` has no such requirement.
- The element's own behaviour is an input, not a model. The `loadedmetadata` and `timeupdate` events carry the duration the browser read and the position playback reached (`Playback.ElementDuration`, `Playback.ElementPosition`); how the browser arrives at them, its clamping of `currentTime` to the duration and when `ended` fires are not modelled. The `Controller` classes take these values as they find them in the element's fields.
- The element's `src` attribute, re-rendered from the index (page.tsx:164), is not modelled. The element object is fixed once the player is created: it is either present or absent for the player's lifetime.
- Numbers are exact reals, not IEEE doubles. An infinite duration is not modelled. `toString` is modelled for non-negative integers only, so the exponent notation used from 10^21 on is absent.
- TimeFormat.JsRem: states its bounds only for a positive divisor. The formatter only ever divides by 60.
