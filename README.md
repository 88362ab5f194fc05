# A verified model of the teatropad soundboard core

teatropad is a browser soundboard. It has two panels of twelve pads. A long press on a pad
opens a file picker, and the chosen audio file is bound to the pad under a fresh object URL.
A click triggers the pad. Only one pad plays at a time: triggering another pad stops and
rewinds the one that was playing. Re-triggering the playing pad toggles pause. At start-up the
pads are rebuilt from the records of a sample store. A transport bar shows the playing sample's
position as "m:ss" and offers play/pause, stop and seek.

This project models the three components that do this, file by file:

- `media.dfy` (module `Media`): the browser objects the components drive. An `AudioHandle` is
  a class whose fields (`paused`, `currentTime`, `src`, `loop`, `duration`, `listeners`) are
  changed in place. A `Listener` is a closure object. An object URL is an opaque `Url` token.
- `pads.dfy` (module `Pads`): the pad data of `src/App.tsx`, as values. It covers
  `defaultPads`, the lookup by id, the rebinding of one pad, and one hydration pass. The pass
  is a loop over a copied array and is proved against the function `Hydrated`.
- `board.dfy` (module `BoardSpec`): the application state as a value, `Board`. Each handler
  of `src/App.tsx` is a function on it, built from single steps. The board invariant `Inv`
  says:
  - both panels keep their slots;
  - every live URL and every URL on a pad lies below `nextUrl`;
  - handles exist only for bound pads;
  - only the pad in the playing slot can be audible;
  - every handle loops.

  The lemmas prove what each handler does and that it keeps `Inv`.
- `soundboard.dfy` (module `SoundBoard`): the `App` component as a class. It holds real
  handle objects in `audioRefs`, and the playing slot holds the very same object. Every
  handler is a method proved to move `Model()` exactly as the matching `BoardSpec` function
  does, and to keep `Valid()`. `Valid()` is `Inv` plus the object links: the ghost mirror
  `handles` agrees with the objects, no handle serves two ids, and the playing slot holds the
  handle registered for its pad. The load handler carries the correction described under
  Findings: `HandleLoadAudio` moves the board as `BoardSpec.LoadAudioCorrected` does. The
  handler as written is the method `HandleLoadAudioAsWritten`, which moves the board as
  `BoardSpec.LoadAudio` does.
- `audio_pad.dfy` (module `AudioPad`): the pad button of `src/components/AudioPad.tsx`. It
  covers the caption truncation, the MIME filter, and the long-press detector. The detector is
  a class whose timer slot is overwritten and cleared as in the component. Timers that the
  platform still holds are tracked in a `pending` set.
- `player.dfy` (module `Player`): the transport of `src/components/Player.tsx`. It covers
  `formatTime` with a parser that inverts it, and the `Transport` class. The class subscribes
  four fresh listeners to the handle, removes them again, and implements play/pause, stop and
  seek.

In `src/App.tsx:141` a newly made handle is set to loop. The model follows the code: every
handle loops, and `Inv` says so.

## Model

| member | source | states |
|---|---|---|
| Pads.DefaultPads | src/App.tsx:38-46 | twelve unbound pads with ids `start`..`start+11`, pad k coloured `colors[k]` |
| Pads.FindPad | src/App.tsx:109 | the index of the first pad with the id; `None` exactly when no pad has it |
| Pads.FindInPanel | src/App.tsx:108-110 | in a well-formed panel an id is found exactly when it is in the panel's range, at its offset |
| Pads.RebindOnlyThatPad | src/App.tsx:121 | the map over the panel replaces exactly the pad with that id by its rebinding (file, name, URL) and keeps every slot |
| Pads.Rebind | src/App.tsx:121 | every slot keeps its id and colour; a pad with another id is unchanged; a pad with the id gets the file, its name and the URL |
| Pads.Admits | src/App.tsx:69 | a record is taken by a panel exactly when its id lies in the panel's twelve ids and it carries a payload (the second panel's test is line 81) |
| Pads.Restore | src/App.tsx:70-72 | the rebuilt pad keeps id and colour, takes the new URL and the stored name, and gets a file object carrying the payload exactly when the name is non-empty |
| Pads.Hydrated | src/App.tsx:66-89 | the panel after applying the records in order keeps twelve slots (its other properties are the `Hydrate…` lemmas below) |
| Pads.HydratePanel | src/App.tsx:66-76 | the copy-and-overwrite loop yields `Hydrated` of the records and hands out one URL per admitted record |
| Pads.HydrateKeepsSlots | src/App.tsx:68-74 | hydration keeps each pad's id and colour |
| Pads.HydrateUntouched | src/App.tsx:68-74 | a pad that no admitted record names keeps its binding |
| Pads.HydrateLastWins | src/App.tsx:68-74 | a pad named by several records ends bound to the last of them, under the URL made for that record |
| Pads.HydrateUrls | src/App.tsx:70-72 | every URL on a hydrated pad is the old one or one made during the pass |
| BoardSpec.BindStepKeepsInv | src/App.tsx:112-124 | revoking the old URL and binding under a new one keeps the invariant and the slots of both panels |
| BoardSpec.PadIsPlaying | src/App.tsx:197 | the highlight: the pad is in the playing slot and its handle is not paused (`PlayingIffAudible` relates it to the invariant) |
| BoardSpec.StartStep | src/App.tsx:138-151 | afterwards the pad has a handle and no other handle is made; the pads are untouched; a pad not in the playing slot takes it and is audible; the pad already in it keeps it |
| BoardSpec.TriggerStep | src/App.tsx:133-151 | afterwards the pad is in the playing slot and has a handle, and a different pad that was in the slot has its handle paused |
| BoardSpec.PlayPause | src/App.tsx:129-152 | the playing slot is either unchanged or holds the triggered pad (its other properties are the `PlayPause…` lemmas below) |
| BoardSpec.ClosePlayer | src/App.tsx:154-159 | the playing slot is empty afterwards; no handle is made or dropped and the pads are untouched |
| BoardSpec.UrlRange | src/App.tsx:70 | exactly the URLs from `lo` up to `hi`, the ones the hydration passes make |
| BoardSpec.HydrateBoard | src/App.tsx:61-93 | both panels keep twelve slots; panel, handles and playing slot are untouched; URLs are only added |
| BoardSpec.LoadAudio | src/App.tsx:107-127 | the load as written; its properties are `LoadAudioRebindsOnlyThatPad` and the lemmas after it |
| BoardSpec.RewindStepKeepsInv | src/App.tsx:133-136 | pausing and rewinding a handle keeps the invariant |
| BoardSpec.StartStepKeepsInv | src/App.tsx:138-151 | making or reusing the pad's handle and starting or toggling it keeps the invariant when any other playing pad is paused |
| BoardSpec.LoadAudioForeignPadIsNoOp | src/App.tsx:108-110 | loading onto an id outside the panel on display changes nothing |
| BoardSpec.LoadAudioRebindsOnlyThatPad | src/App.tsx:107-124 | the load rebinds that pad alone, under a URL that no pad had and that was not live; it revokes the old URL, pauses and empties the pad's handle but keeps it, and leaves the other panel and the playing slot alone |
| BoardSpec.LoadAudioPreservesInv | src/App.tsx:107-124 | loading keeps the board invariant |
| BoardSpec.LoadAudioKeepsSlots | src/App.tsx:121 | loading never moves or recolours a pad |
| BoardSpec.PlayPauseIgnored | src/App.tsx:130-131 | triggering an unknown or unbound pad changes nothing |
| BoardSpec.PlayPauseKeepsPads | src/App.tsx:129-152 | triggering changes only the handles and the playing slot |
| BoardSpec.PlayPauseAcquiresHandle | src/App.tsx:138-143 | a missing handle is made on the pad's URL, looping and then started; an existing one is reused with only its paused flag changed |
| BoardSpec.PlayPauseSwitches | src/App.tsx:133-151 | triggering a pad that is not in the playing slot pauses and rewinds the previous pad, starts the new one and puts it in the slot; no other handle changes |
| BoardSpec.PlayPauseToggles | src/App.tsx:145-147 | re-triggering the playing pad flips its paused flag and nothing else |
| BoardSpec.PlayPausePreservesInv | src/App.tsx:129-152 | triggering keeps the invariant, so at most one handle is ever audible |
| BoardSpec.PlayPauseToggleTwice | src/App.tsx:145-147 | re-triggering the playing pad twice restores the board exactly |
| BoardSpec.PlayingIffAudible | src/App.tsx:197 | a pad is highlighted exactly when its handle is audible, and at most one pad is highlighted |
| BoardSpec.ClosePlayerStops | src/App.tsx:154-159 | closing with nothing playing changes nothing; otherwise it pauses and rewinds the playing handle and empties the slot |
| BoardSpec.ClosePlayerIdempotent | src/App.tsx:154-159 | closing twice equals closing once |
| BoardSpec.ClosePlayerSilences | src/App.tsx:154-159 | after closing every handle is paused and the invariant holds |
| BoardSpec.HydrateBoardNoOp | src/App.tsx:62-64 | a failed or empty read, or an unmounted application, leaves the board alone |
| BoardSpec.HydrateBoardPreservesInv | src/App.tsx:61-93 | hydration keeps slots, handles, playing slot and panel, and the invariant |
| BoardSpec.ReloadThenPlayUsesEmptiedHandle | src/App.tsx:114-118 | as written: after reloading a pad that has a handle, the next trigger plays a handle with no source while the pad shows the new URL |
| BoardSpec.ReloadThenPlayShowsNewUrl | src/App.tsx:120-124 | after a reload and a trigger the pad carries the new URL |
| BoardSpec.LoadAudioCorrected | src/App.tsx:107-127 | the corrected load: a found pad loses its handle and the playing slot, every other handle is kept as it was |
| BoardSpec.DiscardStepKeepsInv | src/App.tsx:114-118 | dropping a pad's handle, and with it the playing slot if that pad held it, keeps the invariant |
| BoardSpec.LoadAudioCorrectedPreservesInv | src/App.tsx:107-127 | the corrected load is the load as written plus dropping the pad's handle, and it keeps the invariant |
| BoardSpec.CorrectedReloadPlaysNewSample | src/App.tsx:114-118 | with the correction, triggering a reloaded pad plays a new looping handle on the new URL from position 0 |
| SoundBoard.App.constructor | src/App.tsx:49-54 | panel 1 on display, two default panels, nothing playing, no handles; the class invariant holds |
| SoundBoard.App.Unmount | src/App.tsx:100-101 | the board is unchanged and later store reads are ignored |
| SoundBoard.App.SelectPanel | src/App.tsx:181-185 | only the panel on display changes |
| SoundBoard.App.Hydrate | src/App.tsx:61-93 | the two passes move the board as `HydrateBoard` does and keep the class invariant |
| SoundBoard.App.SetPanels | src/App.tsx:66-89 | storing both rebuilt panels records the URLs made for them |
| SoundBoard.App.EmptyHandle | src/App.tsx:114-118 | the registered handle object, if any, is paused and detached; no other handle changes and no handle's listeners change |
| SoundBoard.App.RewindHandle | src/App.tsx:133-136 | the registered handle, if any, is paused and rewound; no other handle changes and no handle's listeners change |
| SoundBoard.App.SetPaused | src/App.tsx:145-149 | only the paused flag of that pad's handle changes; no handle's listeners change |
| SoundBoard.App.AcquireHandle | src/App.tsx:138-143 | returns the registered handle, or a fresh looping one on the URL, with no listeners, that is then registered; the registry changes in that entry only |
| SoundBoard.App.BindCurrent | src/App.tsx:112-124 | revokes the old URL, makes a new one and rebinds the pad on the panel on display |
| SoundBoard.App.Claim | src/App.tsx:150 | the playing slot holds the pad and its registered handle |
| SoundBoard.App.Release | src/App.tsx:158 | the playing slot is emptied |
| SoundBoard.App.DiscardHandle | src/App.tsx:114-118 | the pad's handle is unregistered, the registry loses exactly that entry, and the playing slot is emptied if it held the pad (the correction under Findings) |
| SoundBoard.App.Reload | src/App.tsx:112-124 | revoke, rebind and empty the pad's handle, as `LoadAudio` does for a found pad; the registry, the playing slot and all listeners are unchanged |
| SoundBoard.App.ReloadAndDiscard | src/App.tsx:114-118 | the reload followed by unregistering the pad's handle; the registry loses exactly that entry, and the dropped handle object is left paused and detached |
| SoundBoard.App.HandleLoadAudioAsWritten | src/App.tsx:107-127 | the handler as written moves the board as `LoadAudio` does and keeps the class invariant; the registry, the playing slot, `mounted` and every handle's listeners are unchanged |
| SoundBoard.App.HandleLoadAudio | src/App.tsx:107-127 | moves the board as `LoadAudioCorrected` does: the code's steps, and then the old handle is also unregistered (see Findings); keeps the class invariant; the registry loses only that pad's entry, and the dropped handle object is left paused and detached as at 116-117; `mounted` and every handle's listeners are unchanged |
| SoundBoard.App.Start | src/App.tsx:138-151 | moves the board as `StartStep` does; a handle made here is a fresh object with no listeners; every registered handle stays registered under its id; no listeners change |
| SoundBoard.App.Trigger | src/App.tsx:133-151 | moves the board as `TriggerStep` does; a handle made here is a fresh object with no listeners; every registered handle stays registered under its id; no listeners change |
| SoundBoard.App.HandlePlayPause | src/App.tsx:129-152 | moves the board as `PlayPause` does and keeps the class invariant; a handle made here is a fresh object with no listeners; every registered handle stays registered under its id; `mounted`, the pads and every handle's listeners are unchanged |
| SoundBoard.App.HandleClosePlayer | src/App.tsx:154-159 | moves the board as `ClosePlayer` does and keeps the class invariant; the registry, `mounted` and every handle's listeners are unchanged |
| SoundBoard.App.IsPlaying | src/App.tsx:197 | the highlight is the board's `PadIsPlaying` |
| AudioPad.TruncateFileName | src/components/AudioPad.tsx:59-62 | names of at most 15 characters are kept; longer ones become their first 12 characters and "...", 15 in all |
| AudioPad.TruncateIdempotent | src/components/AudioPad.tsx:59-62 | truncating a caption again changes nothing |
| AudioPad.TruncateKeepsPrefix | src/components/AudioPad.tsx:59-62 | a caption is its name or the name's first 12 characters and "..."; long names sharing 12 characters collide |
| AudioPad.Caption | src/components/AudioPad.tsx:83-87 | a caption is shown exactly for a non-empty name, and it is the truncated name |
| AudioPad.AcceptedFile | src/components/AudioPad.tsx:52-53 | the first file is accepted exactly when it exists and its type is audio/mpeg or audio/wav |
| AudioPad.PadInput.constructor | src/components/AudioPad.tsx:13-14 | the timer slot is empty and no timer is pending |
| AudioPad.PadInput.StartTimer | src/components/AudioPad.tsx:17-19 | a new timer is scheduled and stored in the slot; a timer already in the slot stays scheduled |
| AudioPad.PadInput.CancelTimer | src/components/AudioPad.tsx:23-26 | the timer in the slot, if any, is cleared and the slot emptied |
| AudioPad.PadInput.HandleMouseDown | src/components/AudioPad.tsx:16-20 | schedules a new timer into the slot without clearing the old one |
| AudioPad.PadInput.HandleTouchStart | src/components/AudioPad.tsx:38-42 | schedules a new timer into the slot without clearing the old one |
| AudioPad.PadInput.HandleMouseUp | src/components/AudioPad.tsx:22-27 | clears the timer in the slot; with an empty slot nothing changes |
| AudioPad.PadInput.HandleTouchEnd | src/components/AudioPad.tsx:44-49 | clears the timer in the slot; with an empty slot nothing changes |
| AudioPad.PadInput.Fire | src/components/AudioPad.tsx:17-19 | a pending timer opens the picker once and is spent; the slot is not cleared; a cleared timer does nothing |
| AudioPad.PadInput.HandleClick | src/components/AudioPad.tsx:29-36 | triggers the pad exactly when the slot is empty and the pad is bound; a timer in the slot is cleared instead |
| AudioPad.PadInput.HandleFileChange | src/components/AudioPad.tsx:51-57 | requests loading the first file onto this pad exactly when it is accepted; the picker is reset in every case |
| AudioPad.LongPressThenRelease | src/components/AudioPad.tsx:16-36 | a long press opens the picker once, and the release still triggers a bound pad |
| AudioPad.ShortPress | src/components/AudioPad.tsx:16-36 | a short press never opens the picker and triggers a bound pad |
| AudioPad.DoublePressOrphansTimer | src/components/AudioPad.tsx:16-42 | after two press starts, the first timer is never cleared and opens the picker despite a timely release |
| Player.NatToString | src/components/Player.tsx:43 | a non-empty string of digits without leading zeros, one digit exactly below 10 |
| Player.NatToStringValue | src/components/Player.tsx:43 | the numeral of n denotes n |
| Player.PadStart2 | src/components/Player.tsx:43 | strings shorter than two characters get leading zeros up to length two; longer ones are kept |
| Player.LeadingZero | src/components/Player.tsx:43 | a leading zero does not change a numeral's value |
| Player.PadKeepsValue | src/components/Player.tsx:43 | padding keeps a numeral's value |
| Player.SplitSeconds | src/components/Player.tsx:41-42 | for t ≥ 0, `floor(t/60)` and `floor(t % 60)` are the quotient and remainder of `floor(t)` by 60 |
| Player.FormatTime | src/components/Player.tsx:39-44 | a time that is not a number reads "0:00"; every read-out has a colon three characters from the end |
| Player.FormatTimeWhole | src/components/Player.tsx:41-43 | a time reads like its whole seconds |
| Player.FormatWholeParts | src/components/Player.tsx:41-43 | the read-out shows the whole minutes, then two digits of seconds below 60 |
| Player.ParseFormatWhole | src/components/Player.tsx:39-44 | reading back the read-out of n seconds gives n |
| Player.ParseFormatTime | src/components/Player.tsx:39-44 | reading back the read-out of a time gives its whole seconds |
| Player.FormatTimeSameIff | src/components/Player.tsx:39-44 | two times read the same exactly when their whole seconds agree |
| Player.Subscribe | src/components/Player.tsx:23-26 | four fresh listeners, one per event, are added to the handle and its playback state is untouched |
| Player.Transport.constructor | src/components/Player.tsx:11-13 | not playing, at 0, duration 0 |
| Player.Transport.RunEffect | src/components/Player.tsx:15-30 | with a handle: subscribes four fresh listeners and copies the play state and duration; without one, nothing changes |
| Player.Transport.CleanupEffect | src/components/Player.tsx:31-36 | removes exactly the four listeners the effect added |
| Player.Transport.EffectLifecycle | src/components/Player.tsx:15-37 | effect then cleanup restores the handle's listener set |
| Player.Transport.Dispatch | src/components/Player.tsx:18-21 | each own listener copies the time, the duration or the play state from the handle; others change nothing |
| Player.Transport.HandlePlayPause | src/components/Player.tsx:46-53 | pauses the handle when shown as playing and plays it otherwise |
| Player.Transport.HandleStop | src/components/Player.tsx:55-60 | pauses, rewinds to 0 and asks to close exactly once |
| Player.Transport.HandleSeek | src/components/Player.tsx:62-67 | the handle and the read-out move to the same position |
| Player.PlayPauseRoundTrip | src/components/Player.tsx:46-53 | play/pause followed by the handle's event flips the shown state and agrees with the handle |
| Player.NoElementIsInert | src/components/Player.tsx:46-67 | without a handle no control has an effect |

## Left out

- Persistence: `savePad` (src/App.tsx:126) and the store read `getAllPads`. The read is a
  parameter, `StoreLoad`. The write is fire-and-forget and is not modelled.
- The online/offline indicator (src/App.tsx:95-98, 102-103): it affects only presentation.
- Awaiting and the failure of the promise returned by `play()`: a play is taken to succeed.
- Real time and floating point. Handle positions and durations are whole seconds (`nat`).
  `formatTime` takes an exact non-negative real, without rounding. `Infinity` durations and
  negative times are not modelled. `handleSeek` takes the parsed slider value as a `nat`.
- React state batching, stale closures and re-rendering: each handler sees the latest state
  and its updates take effect at once.
- Colours are opaque strings. The palette constants are parameters of `App`'s constructor.
- The 500 ms delay of the long-press timer. Which timer fires when is the caller's choice, via
  `PadInput.Fire`.
- The `Player` is shown only when the playing pad is on the panel on display (src/App.tsx:161,
  189-193). `Transport` is not composed with `App`. It drives a handle of its own, so the way
  its controls change `App`'s handles and playing slot is not modelled.
- The events the browser fires on its own (time updates, metadata, the end of a sample): they
  are delivered through `Transport.Dispatch` by the caller.
- The slider's `max` attribute (`duration || 0`) and the caption's CSS truncation of the file
  name in the transport bar.
- AudioPad.TruncateFileName: lengths are counted in characters (Unicode scalar values), while
  JavaScript's `length` and `substring` count UTF-16 code units. For names with characters
  outside the Basic Multilingual Plane the cut falls elsewhere, and JavaScript may split a
  surrogate pair, which the model cannot express.
- Player.Transport.RunEffect: subscriptions are a set of distinct listener objects. Adding the
  same closure twice, which the browser ignores, cannot happen here.

## Findings

| source | as written | input that shows it | evidently intended | confidence | as-written member | corrected member |
|---|---|---|---|---|---|---|
| src/App.tsx:114-118 | loading a file onto a pad pauses its handle and sets its `src` to "", but keeps the handle registered under the pad id; the next trigger reuses it (src/App.tsx:138-143) | play pad 0 bound to URL A, load a new file onto pad 0, trigger pad 0 again: `play()` is called on the emptied handle and the new sample is not heard | the old handle is dropped, so the next trigger makes a handle on the new URL and plays the new sample from 0; `SoundBoard.App.HandleLoadAudio` does this | not executed | BoardSpec.ReloadThenPlayUsesEmptiedHandle | BoardSpec.CorrectedReloadPlaysNewSample |
