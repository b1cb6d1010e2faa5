# Artist portfolio: a verified model of the playback engine and its satellites

This project models, in Dafny, the core of an artist-portfolio web site written in TypeScript/React
on Next.js, and proves properties of that model.

The centre is the client-side playback engine:

- **Player context** (`player_context.dfy`). The session state is a class with the fields
  `currentTrack`, `isPlaying`, `playlist`, `shuffle`, `shuffledPlaylist`, `volume` and `repeat`.
  Each transition is one method: play, toggle, shuffle with Fisher–Yates, repeat, next and previous
  with wrap-around, queue insertions, removal, reordering and clearing. Each method is proved
  against a specification function of the old state. Every method keeps the one invariant the
  state has: with shuffle off there is no shuffled copy. That the shuffled copy is a permutation
  of the playlist is proved where it is made, by the shuffle toggle and the re-shuffle effect;
  other transitions may change the playlist before that effect runs, as in the source.
- **Audio manager** (`audio_manager.dfy`). A resource state machine. It is either uninitialized
  or fully wired to an abstract media element, and it has safe defaults on every getter, volume
  clamping, seeking and cleanup.
- **Frequency analyser** (`audio_analyzer.dfy`). The beat-intensity computation over a byte
  buffer and the lifecycle of the analyser.
- **Waveform peak extraction** (`waveform.dfy`). The block-wise maximum of magnitudes, followed
  by normalisation.
- **Glue arithmetic.**
  - The queue panel's index mapping (`queue_view.dfy`).
  - The player bar's time formatting, seek clamps and position guard (`player_bar.dfy`).
  - The visualizer's beat throttle and bar geometry (`visualizer.dfy`).

Around the engine sit the site's small self-contained units:

- blog slugs and the migration script's slug-uniqueness loop;
- video and SoundCloud url parsing, cover-url absolutisation and upload validation;
- middleware route protection;
- the settings, newsletter and guestbook stores, modelled as a map, a set and an entry table;
- the reading-time estimate, share and embed links, and OG parameter truncation;
- tour and gallery list partitions;
- the track, album and list play handlers.

`strings.dfy` and `common.dfy` give the JavaScript built-ins these use (`split`, `trim`,
`padStart`, `toLowerCase`, `Math.floor` and so on) as functions with their own contracts.

Some inputs become parameters of the model, so that every operation is deterministic:

- clocks;
- random choices (the `Math.random` draws of the shuffle, the random part of upload file names);
- whether a database statement, a clipboard write, a media load or a fetch fails;
- the outcome of session decryption.

## Model

| member | source | states |
|---|---|---|
| PlayerContext.Hydrate | context/player-context.tsx:49-76 | the restored state never plays and has no shuffled order; with nothing saved it is the initial state (no track, volume 0.8, empty queue, shuffle and repeat off) |
| PlayerContext.Player.constructor | context/player-context.tsx:49-76 | the provider starts in the hydrated state of what was saved, paused |
| PlayerContext.FindIndexById | context/player-context.tsx:146-148 | `findIndex` answers the first position holding the id, or -1 exactly when no entry has it |
| PlayerContext.FindDistinct | context/player-context.tsx:146-148 | when ids are distinct, looking up the id of entry i finds i |
| PlayerContext.PlayTrackSpec | context/player-context.tsx:100-107 | playing a track makes it current and playing and changes nothing else |
| PlayerContext.Player.PlayTrack | context/player-context.tsx:100-107 | the provider's state after `playTrack` is `PlayTrackSpec` of the state before |
| PlayerContext.Player.Stop | context/player-context.tsx:95-98 | `stop` only clears the playing flag |
| PlayerContext.Player.TogglePlay | context/player-context.tsx:109-111 | `togglePlay` flips the playing flag and nothing else |
| PlayerContext.Player.SetVolume | context/player-context.tsx:52 | the volume setter changes only the volume |
| PlayerContext.Player.SetPlaylist | context/player-context.tsx:53 | the playlist setter changes only the playlist |
| PlayerContext.NextRepeat | context/player-context.tsx:133-139 | the repeat button always changes the mode |
| PlayerContext.RepeatCycle | context/player-context.tsx:133-139 | off, all and one form a three-cycle: three presses come back to the start and two presses differ from one |
| PlayerContext.Player.ToggleRepeat | context/player-context.tsx:133-139 | `toggleRepeat` advances only the repeat mode |
| PlayerContext.Pick | context/player-context.tsx:121 | `Math.floor(Math.random() * (i + 1))` is an index no greater than i |
| PlayerContext.Swap | context/player-context.tsx:122 | the destructuring swap keeps the length |
| PlayerContext.SwapPermutes | context/player-context.tsx:122 | the swap keeps the multiset of tracks |
| PlayerContext.Picks | context/player-context.tsx:120-121 | one draw per position, each pick bounded by its position |
| PlayerContext.Shuffled | context/player-context.tsx:119-123 | the Fisher-Yates loop from position i down keeps the length |
| PlayerContext.ShuffledPermutes | context/player-context.tsx:119-123 | every run of the swap loop is a permutation |
| PlayerContext.FisherYates | context/player-context.tsx:117-124 | the shuffled copy for the given draws has as many entries as the playlist |
| PlayerContext.FisherYatesPermutes | context/player-context.tsx:119-123 | the shuffled copy holds the same tracks as the playlist, as often |
| PlayerContext.Shuffle | context/player-context.tsx:119-123 | the in-place loop over a copy computes the Fisher-Yates order for the given draws, a permutation of the playlist |
| PlayerContext.ActiveOrder | context/player-context.tsx:144-145 | navigation walks the shuffled list exactly when shuffle is on and that list is non-empty, and the playlist otherwise; it is never empty when the playlist has tracks |
| PlayerContext.NavigationIdle | context/player-context.tsx:141-142 | with no current track or an empty playlist, next and previous change nothing (line 170 likewise) |
| PlayerContext.RepeatOneReplays | context/player-context.tsx:150-154 | with repeat one, next and previous both replay the current track (lines 178-182 likewise) |
| PlayerContext.NextAdvances | context/player-context.tsx:165-166 | when the current track is found at i before the end, next plays entry i + 1 |
| PlayerContext.NextAtEnd | context/player-context.tsx:156-163 | at the end, or when the track is not in the order, next wraps to the first entry with repeat all and does nothing with repeat off |
| PlayerContext.PrevRetreats | context/player-context.tsx:193-194 | when the current track is found at i > 0, previous plays entry i - 1 |
| PlayerContext.PrevAtStart | context/player-context.tsx:184-191 | at the start, or when the track is not in the order, previous wraps to the last entry with repeat all and does nothing with repeat off |
| PlayerContext.NavigationKeepsOrder | context/player-context.tsx:141-195 | next and previous never change the playlist, the active order or the repeat mode |
| PlayerContext.NextStep | context/player-context.tsx:141-167 | with repeat all and distinct ids, next moves one step round the ring of the active order |
| PlayerContext.NextCycle | context/player-context.tsx:141-167 | k presses of next land k places further round the ring |
| PlayerContext.NextFullCycle | context/player-context.tsx:141-167 | as many presses as there are tracks come back to the current track |
| PlayerContext.PrevStep | context/player-context.tsx:169-195 | with repeat all and distinct ids, previous moves one step back round the ring |
| PlayerContext.PrevUndoesNext | context/player-context.tsx:141-195 | with repeat all and distinct ids, previous after next returns to the track it started from |
| PlayerContext.PlayNextSpec | context/player-context.tsx:141-167 | `playNext` keeps the queue, the shuffled copy, volume, shuffle and repeat; when it changes anything, the picked track plays, and it is the current track or an entry of the active order |
| PlayerContext.PlayPrevSpec | context/player-context.tsx:169-195 | `playPrev` keeps the queue, the shuffled copy, volume, shuffle and repeat; when it changes anything, the picked track plays, and it is the current track or an entry of the active order |
| PlayerContext.Player.PlayNext | context/player-context.tsx:141-167 | the imperative `playNext` reaches `PlayNextSpec` of the state before |
| PlayerContext.Player.PlayPrev | context/player-context.tsx:169-195 | the imperative `playPrev` reaches `PlayPrevSpec` of the state before |
| PlayerContext.NewTracks | context/player-context.tsx:243-244 | no longer than the batch; every kept track comes from the batch with an unqueued id, and every batch track with an unqueued id is kept (order and multiplicity: `NewTracksConcat`, `NewTracksSingle`) |
| PlayerContext.AddToQueueSpec | context/player-context.tsx:241-247 | only the queue changes; the old queue is a prefix of the new, every appended entry came from the added tracks and had an id not queued before, and afterwards every added track's id is queued; the appended part is `NewTracks`, whose order is fixed by `NewTracksConcat` and `NewTracksSingle` |
| PlayerContext.NewTracksCover | context/player-context.tsx:243-244 | after appending the new tracks, every id of the added tracks is queued |
| PlayerContext.NewTracksNone | context/player-context.tsx:243-244 | when every id is already queued nothing is new |
| PlayerContext.NewTracksConcat | context/player-context.tsx:243-244 | the filter of `a + b` is the filter of `a` followed by that of `b`, both against the same queue: input order is kept |
| PlayerContext.NewTracksSingle | context/player-context.tsx:243-244 | one track is kept exactly when its id is not queued |
| PlayerContext.NewTracksKeepsBatchDuplicates | context/player-context.tsx:243-244 | an unqueued track given twice in one batch is appended twice |
| PlayerContext.AddPresentIsNoop | context/player-context.tsx:241-247 | adding tracks that are all queued leaves the state unchanged |
| PlayerContext.AddToQueueIdempotent | context/player-context.tsx:241-247 | adding the same tracks twice is adding them once |
| PlayerContext.Player.AddToQueue | context/player-context.tsx:241-247 | `addToQueue` reaches `AddToQueueSpec` of the state before: the new tracks appended and nothing else changed |
| PlayerContext.WithoutId | context/player-context.tsx:216 | the filter removes every entry with the id |
| PlayerContext.WithoutIdKeeps | context/player-context.tsx:216 | every other track is kept as often as before |
| PlayerContext.WithoutIdConcat | context/player-context.tsx:216 | the filter distributes over concatenation |
| PlayerContext.WithoutAbsentId | context/player-context.tsx:216 | removing an id nobody has changes nothing |
| PlayerContext.RemoveTrackSpec | context/player-context.tsx:212-217 | only the queue changes and it never grows; removing the current track's id changes nothing |
| PlayerContext.RemoveTrackEffect | context/player-context.tsx:212-217 | removing the current track's id is refused; otherwise no entry with the id remains and every other track stays as often as before |
| PlayerContext.Player.RemoveTrack | context/player-context.tsx:212-217 | `removeTrack` reaches `RemoveTrackSpec` of the state before |
| PlayerContext.SpliceStart | context/player-context.tsx:223 | `splice`'s start index clamped into the array, unchanged when already inside |
| PlayerContext.RemoveAt | context/player-context.tsx:222 | `splice(from, 1)` is one shorter; entries before `from` stay, and every later entry moves one place forward |
| PlayerContext.RemoveAtDrops | context/player-context.tsx:222 | what is left plus the removed entry is the original multiset |
| PlayerContext.RemoveInserted | context/player-context.tsx:222-223 | taking an inserted entry out again gives back the list it went into |
| PlayerContext.InsertAt | context/player-context.tsx:223 | `splice(k, 0, t)` puts t at k with the entries before and after k kept in order |
| PlayerContext.InsertAtAdds | context/player-context.tsx:223 | inserting adds exactly one copy of the track |
| PlayerContext.InsertAtEnd | context/player-context.tsx:230 | inserting at the length appends |
| PlayerContext.Reorder | context/player-context.tsx:219-226 | the moved track lands at the clamped target index and the length is kept (the others' order: `ReorderKeepsOthers`) |
| PlayerContext.ReorderPermutes | context/player-context.tsx:219-226 | reordering is a permutation of the queue |
| PlayerContext.ReorderKeepsOthers | context/player-context.tsx:219-226 | the other entries keep their relative order: taking the moved entry out of the result leaves what taking it out of the queue leaves |
| PlayerContext.ReorderSpec | context/player-context.tsx:219-226 | only the queue changes; it keeps every entry as often as before and has the moved track at the clamped target index, its queue being `Reorder`'s |
| PlayerContext.ReorderKeepsPrefix | context/player-context.tsx:219-226 | entries before both the source and the target index stay in place |
| PlayerContext.Player.ReorderTracks | context/player-context.tsx:219-226 | `reorderTracks` reaches `ReorderSpec` of the state before: only the playlist changes, to the reordered queue |
| PlayerContext.InsertPos | context/player-context.tsx:230-236 | the insertion point always lies inside the queue |
| PlayerContext.PlayNextInQueueSpec | context/player-context.tsx:228-239 | only the queue changes; it grows by one and holds the track at the insertion point |
| PlayerContext.PlayNextInQueueAdds | context/player-context.tsx:228-239 | "play next" adds exactly one copy of the track to the queue |
| PlayerContext.PlayNextInQueueAfterCurrent | context/player-context.tsx:232-237 | when the current track is queued, the new track comes right after its first occurrence and everything up to it stays |
| PlayerContext.PlayNextInQueueAppends | context/player-context.tsx:230-233 | with no current track, or one not in the queue, the track is appended |
| PlayerContext.Player.PlayNextInQueue | context/player-context.tsx:228-239 | `playNextInQueue` reaches `PlayNextInQueueSpec` of the state before |
| PlayerContext.ClearQueueSpec | context/player-context.tsx:249-256 | clearing leaves the queue holding exactly the current track, or nothing when there is none, and changes no other field |
| PlayerContext.ClearQueueKeepsCurrent | context/player-context.tsx:249-256 | after clearing, the current track is found at the head of the queue, and clearing twice is clearing once |
| PlayerContext.ToggleShuffleSpec | context/player-context.tsx:113-131 | only shuffle and the shuffled copy change; shuffle flips, a copy as long as the playlist exists while it is on and none when it is off |
| PlayerContext.SyncShuffleSpec | context/player-context.tsx:199-210 | only the shuffled copy changes; with shuffle on and a non-empty playlist it is rebuilt with the playlist's length, otherwise nothing changes |
| PlayerContext.Player.ClearQueue | context/player-context.tsx:249-256 | `clearQueue` reaches `ClearQueueSpec` of the state before |
| PlayerContext.ToggleShuffleEffect | context/player-context.tsx:113-131 | toggling flips the flag, keeps a shuffled order only while shuffle is on, and navigation then walks a permutation of the playlist (the playlist itself once shuffle is off) |
| PlayerContext.Player.ToggleShuffle | context/player-context.tsx:113-131 | `toggleShuffle` reaches `ToggleShuffleSpec` of the state before and the draws |
| PlayerContext.SyncShuffleEffect | context/player-context.tsx:199-210 | re-shuffling on a playlist change keeps the shuffled order consistent and a permutation of a non-empty playlist |
| PlayerContext.Player.SyncShuffle | context/player-context.tsx:199-210 | the effect reaches `SyncShuffleSpec` of the state before and the draws |
| AudioGraph.CleanupSpec | lib/audio-manager.ts:241-290 | cleanup leaves a well-formed, uninitialised manager |
| AudioGraph.CleanupIdempotent | lib/audio-manager.ts:241-290 | cleaning up twice is cleaning up once, and a fresh manager is already clean |
| AudioGraph.InitializeSpec | lib/audio-manager.ts:20-93 | the manager after `initialize` is well formed, initialised exactly when the element reports `canplaythrough`, and then holds an element for the url at position 0 with the reported duration and no listeners |
| AudioGraph.InitializeResult | lib/audio-manager.ts:42-66 | `initialize` resolves exactly when the element reports `canplaythrough`; a load error or the 10-second timeout rejects |
| AudioGraph.InitializeForgetsPast | lib/audio-manager.ts:20-24 | the state after `initialize` does not depend on the state before it, since it starts with a cleanup |
| AudioGraph.InitializeEffect | lib/audio-manager.ts:20-93 | success builds the graph source, analyser (fft 512, smoothing 0.3, -90 to -10 dB), gain 1.0, destination, paused, for the url; failure cleans up back to the uninitialised manager |
| AudioGraph.AudioManager.constructor | lib/audio-manager.ts:7-14 | a new manager holds nothing |
| AudioGraph.AudioManager.Cleanup | lib/audio-manager.ts:241-290 | `cleanup` reaches `CleanupSpec` of the state before, the uninitialised manager |
| AudioGraph.AudioManager.Initialize | lib/audio-manager.ts:20-93 | `initialize` reaches `InitializeSpec` of the state before and reports `InitializeResult` of the load |
| AudioGraph.AudioManager.GetAnalyser | lib/audio-manager.ts:98-100 | there is an analyser exactly when the manager is initialised, configured with the 512-point transform |
| AudioGraph.AudioManager.GetAudioElement | lib/audio-manager.ts:105-107 | there is an element exactly when the manager is initialised |
| AudioGraph.AudioManager.GetAudioContext | lib/audio-manager.ts:112-114 | there is a context exactly when the manager is initialised |
| AudioGraph.AudioManager.Play | lib/audio-manager.ts:119-124 | without an element `play` fails with "not initialized"; otherwise it unpauses the element, or fails and changes nothing when the browser refuses |
| AudioGraph.AudioManager.Pause | lib/audio-manager.ts:129-134 | `pause` pauses the element if there is one and changes nothing else |
| AudioGraph.AudioManager.IsPlaying | lib/audio-manager.ts:139-141 | playing means there is an element and it is not paused, which needs an initialised manager |
| AudioGraph.AudioManager.GetCurrentTime | lib/audio-manager.ts:146-148 | the element's position, or 0 without an element |
| AudioGraph.AudioManager.GetDuration | lib/audio-manager.ts:153-157 | the element's duration when it is known and non-zero, 0 otherwise |
| AudioGraph.AudioManager.SeekTo | lib/audio-manager.ts:162-167 | seeking moves only the element's position, and nothing happens without an element |
| AudioGraph.AudioManager.SeekToProgress | lib/audio-manager.ts:172-177 | seeking to a fraction sets the position to fraction times duration, and does nothing while the duration is unknown or zero |
| AudioGraph.AudioManager.SetVolume | lib/audio-manager.ts:182-187 | the gain becomes the volume clamped into [0, 1], and nothing happens without a gain node |
| AudioGraph.AudioManager.GetVolume | lib/audio-manager.ts:192-194 | the gain value, always in [0, 1], or 1.0 without a gain node |
| AudioGraph.AudioManager.AddEventListener | lib/audio-manager.ts:199-208 | the listener joins the element's listeners, and nothing happens without an element |
| AudioGraph.AudioManager.RemoveEventListener | lib/audio-manager.ts:213-222 | the listener leaves the element's listeners, and nothing happens without an element |
| AudioGraph.AudioManager.GetInitialized | lib/audio-manager.ts:227-229 | initialised exactly when the element, analyser, gain, context and source all exist |
| AudioGraph.AudioManager.GetCurrentUrl | lib/audio-manager.ts:234-236 | there is a url exactly when the manager is initialised, and it is the element's source |
| FrequencyAnalysis.MaxOf | lib/audio-analyzer.ts:55-60 | the largest byte of a non-empty slice: one of its values and no smaller than any |
| FrequencyAnalysis.Sum | lib/audio-analyzer.ts:55-75 | a sum of n bytes is at most 255 n |
| FrequencyAnalysis.KickIntensity | lib/audio-analyzer.ts:55-56 | the kick peak lies in [0, 1], is no smaller than any of the first eight bins over 255 and equals one of them |
| FrequencyAnalysis.SnareIntensity | lib/audio-analyzer.ts:59-60 | the snare peak lies in [0, 1], is no smaller than any of bins 8 to 19 over 255 and equals one of them |
| FrequencyAnalysis.KickAverage | lib/audio-analyzer.ts:63 | the mean of the first eight bins over 255 lies in [0, 1] |
| FrequencyAnalysis.TotalEnergy | lib/audio-analyzer.ts:66 | the mean of all bins over 255 lies in [0, 1] |
| FrequencyAnalysis.OverallIntensity | lib/audio-analyzer.ts:70-75 | the overall intensity is the largest of the kick peak, 1.8 times the kick average, 0.7 times the snare peak and half the total energy |
| FrequencyAnalysis.BeatIntensity | lib/audio-analyzer.ts:79-86 | a beat is reported exactly when the overall intensity exceeds the threshold, with strength three times the intensity capped at 1 |
| FrequencyAnalysis.ZeroSum | lib/audio-analyzer.ts:55-66 | silent bins sum to zero |
| FrequencyAnalysis.SilenceHasNoBeat | lib/audio-analyzer.ts:55-86 | a silent spectrum has zero intensity and never reports a beat |
| FrequencyAnalysis.LoudKickBeats | lib/audio-analyzer.ts:55-86 | any of the eight kick bins above 12 is enough for a beat |
| FrequencyAnalysis.AnalyzeFrame | lib/audio-analyzer.ts:50-88 | a frame hands the spectrum to the frequency callback when there is one and reports a beat exactly when there is a beat callback and the intensity is above the threshold; with a beat callback the value passed is `BeatIntensity`, three times the overall intensity capped at 1 (lines 82-84) |
| FrequencyAnalysis.AudioAnalyzer.constructor | lib/audio-analyzer.ts:1-20 | a new analyser has no node, no buffer, no frame loop and no callbacks |
| FrequencyAnalysis.AudioAnalyzer.Initialize | lib/audio-analyzer.ts:21-29 | a missing analyser node is an error that changes nothing; otherwise a fresh zeroed buffer of the node's bin count is allocated |
| FrequencyAnalysis.AudioAnalyzer.Analyze | lib/audio-analyzer.ts:41-92 | one frame of the loop copies the spectrum into the buffer, schedules the next frame and reports the frame's analysis; without a buffer it stops |
| FrequencyAnalysis.AudioAnalyzer.Start | lib/audio-analyzer.ts:34-92 | `start` records the callbacks and runs the first frame; without a buffer it does nothing |
| FrequencyAnalysis.AudioAnalyzer.Stop | lib/audio-analyzer.ts:97-104 | `stop` cancels the frame loop and drops the callbacks, keeping the node and buffer |
| FrequencyAnalysis.AudioAnalyzer.GetFrequencyData | lib/audio-analyzer.ts:109-113 | the current spectrum, copied into the buffer, or nothing before `initialize` |
| FrequencyAnalysis.AudioAnalyzer.Cleanup | lib/audio-analyzer.ts:119-124 | `cleanup` stops and forgets the node and the buffer |
| FrequencyAnalysis.CopyInto | lib/audio-analyzer.ts:43 | `getByteFrequencyData` fills the buffer with the spectrum |
| Waveform.Abs | lib/waveform.ts:37 | `Math.abs`: non-negative and equal to the value or its negation |
| Waveform.BlockPeak | lib/waveform.ts:34-40 | a block's peak is never negative |
| Waveform.BlockPeakIsMax | lib/waveform.ts:34-40 | the peak is no smaller than the magnitude of any sample of the block that exists, and is one of them unless it is the starting 0 |
| Waveform.BlockPeakBeyond | lib/waveform.ts:36 | the inner loop stops at the end of the channel: samples past it add nothing |
| Waveform.RawPeaks | lib/waveform.ts:26-45 | one non-negative peak per requested sample |
| Waveform.PeakMax | lib/waveform.ts:48 | the largest peak, never negative |
| Waveform.PeakMaxIsMax | lib/waveform.ts:48 | no peak exceeds it, and it is one of them unless it is 0 |
| Waveform.Normalize | lib/waveform.ts:48-51 | all-zero peaks are returned unchanged; otherwise every value lies in [0, 1], the loudest becomes exactly 1, a value is 0 exactly when its peak was, and each value times the largest peak gives back its peak, so the shape is kept |
| Waveform.Scale | lib/waveform.ts:48-51 | dividing peaks by a bound of them all gives values in [0, 1], zero exactly where the peak is zero, one where the peak is the bound, and values that give back their peak when multiplied by the bound |
| Waveform.ComputePeaks | lib/waveform.ts:26-45 | the two nested loops compute `RawPeaks`, the peak magnitude of each block |
| Waveform.GenerateWaveformPeaks | lib/waveform.ts:9-67 | a read failure rejects with "Failed to read audio file", a decode failure rejects, and a decoded file resolves to the normalised block peaks of its first channel |
| Waveform.GenerateWaveformWithWaveSurfer | lib/waveform.ts:73-139 | a load error rejects, a ready player without decoded data rejects with "Failed to decode audio", otherwise the normalised block peaks of the first channel |
| Waveform.BlocksInside | lib/waveform.ts:26-32 | every block lies inside the channel |
| Waveform.QuietWaveform | lib/waveform.ts:26-51 | a silent channel, or one shorter than the sample count (block size 0), gives all-zero peaks |
| Waveform.SilentBlock | lib/waveform.ts:34-40 | a silent channel has a zero peak in every block |
| Waveform.ZeroPeakMax | lib/waveform.ts:48-51 | all-zero peaks have maximum 0, so they are not divided |
| QueueView.CurrentIndex | components/queue-interface.tsx:24-26 | the first position of the current track's id, or -1 exactly when there is no current track or it is not queued |
| QueueView.Upcoming | components/queue-interface.tsx:27 | the upcoming list is exactly the queue after the current track, the whole queue when it is not found |
| QueueView.DisplayNumber | components/queue-interface.tsx:132-156 | row i is numbered with the 1-based position in the queue of the track it shows |
| QueueView.DropMove | components/queue-interface.tsx:50-62 | a drop reorders exactly when both a dragged and a hovered row are set and differ, and then moves between their queue positions |
| QueueView.FindInPrefix | components/queue-interface.tsx:24-26 | a track found at c is still found at c when the queue up to c is unchanged |
| QueueView.DropInRange | components/queue-interface.tsx:58-59 | the queue position computed for a row lies inside the queue |
| QueueView.DropKeepsHead | components/queue-interface.tsx:50-62 | a drop among the upcoming rows leaves the current track and everything before it in place |
| QueueView.DropKeepsCurrentIndex | components/queue-interface.tsx:50-62 | after such a drop the current track is found at the same position, so the upcoming list stays the rest of the queue |
| QueueView.AbsentStaysAbsent | components/queue-interface.tsx:24-27 | reordering cannot make a missing current track appear |
| QueueView.QueuePanel.constructor | components/queue-interface.tsx:20-21 | no drag in progress at first |
| QueueView.QueuePanel.DragStart | components/queue-interface.tsx:41-43 | the dragged row is recorded |
| QueueView.QueuePanel.DragOver | components/queue-interface.tsx:45-48 | the hovered row is recorded |
| QueueView.QueuePanel.DragLeave | components/queue-interface.tsx:143 | leaving a row clears the hovered row |
| QueueView.QueuePanel.DragEnd | components/queue-interface.tsx:50-65 | when two distinct rows were involved, the returned (from, to) is exactly the move `DropMove` computes from the old current index and rows, and the playlist becomes that reorder with every other field kept; otherwise the player is unchanged and (-1, -1) is returned; both rows are always cleared |
| PlayerBar.FormatTime | components/player.tsx:333-337 | the clock text always has at least a minute digit, a colon and two second digits |
| PlayerBar.ClockSplit | components/player.tsx:334-335 | for a non-negative time, whole minutes and the seconds remainder (0 to 59) recombine to the whole seconds |
| PlayerBar.TwoDigits | components/player.tsx:336 | `padStart(2, "0")` of a seconds count below 60 is two digits that read back as that count |
| PlayerBar.ClockTextReadsBack | components/player.tsx:336 | the minutes and padded seconds, joined by a colon, read back as the two numbers |
| PlayerBar.JoinedClock | components/player.tsx:336 | any digit string, a colon and two digits read back as their numbers |
| PlayerBar.FormatTimeRoundTrip | components/player.tsx:333-337 | the clock text of a non-negative time reads back as its whole minutes and its seconds remainder |
| PlayerBar.SeekOffset | components/player.tsx:280 | `details.seekOffset \|\| 10`: a missing or zero offset becomes 10 seconds |
| PlayerBar.SeekBackwardTime | components/player.tsx:280 | seeking back lands offset seconds earlier (ten when none or zero is given), or at 0 when that would be negative |
| PlayerBar.SeekForwardTime | components/player.tsx:292 | seeking forward lands offset seconds later (ten when none or zero is given), or at the duration when that would be later |
| PlayerBar.SeekBackUndoesForward | components/player.tsx:277-298 | a forward seek followed by a backward seek with the same offset returns to the starting time when the track is long enough |
| PlayerBar.WaveformProgress | components/player.tsx:282-284 | the waveform follows exactly when there is one and the duration is positive |
| PlayerBar.SeekBackward | components/player.tsx:277-286 | the handler acts exactly when there is a manager and the event has details; the new time is the backward seek time, never negative, and the waveform progress is that time over the duration, within [0, 1] |
| PlayerBar.SeekForward | components/player.tsx:289-298 | the handler acts exactly when there is a manager and the event has details; the new time is the forward seek time, never past the duration, and the waveform progress is that time over the duration, within [0, 1] |
| PlayerBar.PositionState | components/player.tsx:305-311 | the lock-screen position is published exactly when there is a manager and both numbers are finite with a positive duration, and it is the current time clamped into the duration |
| PlayerBar.InteractionTime | components/player.tsx:162-168 | a click on the waveform seeks exactly when the duration is positive, to a time inside the track |
| PlayerBar.SyncProgress | components/player.tsx:123-130 | the waveform is synchronised exactly when the duration is positive |
| PlayerBar.SyncThenSeek | components/player.tsx:123-168 | clicking at the progress the sync showed seeks back to the time it came from |
| PlayerBar.Bar.constructor | components/player.tsx:44-57 | the player bar starts without a manager or a waveform |
| PlayerBar.Bar.TearDown | components/player.tsx:61-73 | tearing down cleans the manager up and drops it and the waveform (also the effect cleanup at lines 180-192) |
| PlayerBar.CleanupOfWellFormed | lib/audio-manager.ts:241-290 | a manager that cleanup leaves unchanged is the uninitialised one |
| PlayerBar.Bar.PlayingChanged | components/player.tsx:196-212 | when the flag turns on the manager plays (if the browser allows) and the waveform is synchronised; when it turns off the manager pauses |
| PlayerBar.Bar.Interaction | components/player.tsx:162-168 | a waveform click moves playback to progress times duration, and does nothing while the duration is not positive |
| PlayerBar.Bar.MediaSeek | components/player.tsx:277-298 | the lock-screen seek handlers move playback to the computed time and report the waveform progress |
| PlayerBar.OnEnded | components/player.tsx:93-95 | the end of a track plays the next one |
| PlayerBar.OnMediaAction | components/player.tsx:253-274 | the lock-screen play and pause both toggle playback; next and previous track navigate the queue |
| Visualizer.PropsChangedSpec | components/audio-visualizer.tsx:19-84 | with no analyser or not playing, the shake is off and nothing is held or pending; otherwise a fresh analyser is held and no shake is on yet; the throttle clock survives |
| Visualizer.OnBeatSpec | components/audio-visualizer.tsx:42-65 | a beat never moves the throttle clock back and, when it changes anything, stamps it with now; the shake turns on exactly on an accepted beat above 0.05 (or stays on), and a new removal is always due 120 ms after that beat |
| Visualizer.TimerSpec | components/audio-visualizer.tsx:60-62 | a due removal turns the shake off and clears the timer; before it is due nothing changes; the clock and analyser are untouched either way |
| Visualizer.TeardownSpec | components/audio-visualizer.tsx:71-83 | the cleanup leaves no shake, no analyser and no pending timer, and keeps the throttle clock |
| Visualizer.EffectSpec | components/audio-visualizer.tsx:24-36 | an analyser is held exactly when there is one and playback is on; without one the shake class is removed; the timer and clock are untouched |
| Visualizer.BeatThrottled | components/audio-visualizer.tsx:44-46 | a beat within 30 ms of the last accepted one is ignored |
| Visualizer.QuietBeatStamps | components/audio-visualizer.tsx:46-51 | an accepted beat of intensity at most 0.05 only moves the throttle clock |
| Visualizer.ShakeStartsOnBeat | components/audio-visualizer.tsx:46-52 | the shake starts exactly on an accepted beat above 0.05 |
| Visualizer.LatestBeatWins | components/audio-visualizer.tsx:54-62 | a second strong beat replaces the pending removal, which then falls 120 ms after it |
| Visualizer.ShakeDuration | components/audio-visualizer.tsx:51-62 | after a strong beat the shake lasts exactly 120 ms |
| Visualizer.BeatShake.constructor | components/audio-visualizer.tsx:15-17 | the refs start empty, with the throttle clock at 0 |
| Visualizer.BeatShake.OnBeat | components/audio-visualizer.tsx:42-65 | the beat callback reaches `OnBeatSpec` of the refs before, the intensity and the clock |
| Visualizer.BeatShake.TimerFires | components/audio-visualizer.tsx:60-62 | the removal timer reaches `TimerSpec` of the refs before and the clock |
| Visualizer.BeatShake.Teardown | components/audio-visualizer.tsx:71-83 | the effect cleanup reaches `TeardownSpec` of the refs before |
| Visualizer.BeatShake.PropsChanged | components/audio-visualizer.tsx:19-84 | a change of analyser or playing flag reaches `PropsChangedSpec`: the old cleanup, then the effect |
| Visualizer.Boost | components/audio-visualizer.tsx:183-184 | the boosted bin value lies in [0, 1] |
| Visualizer.BarCount | components/audio-visualizer.tsx:174 | one bar per bin, but never more than 128 |
| Visualizer.Hue | components/audio-visualizer.tsx:190 | bar hues run from 240 up to, not including, 360 |
| Visualizer.Lightness | components/audio-visualizer.tsx:192 | bar lightness lies between 50 and 80 percent |
| Visualizer.BarHeight | components/audio-visualizer.tsx:185 | a bar is never taller than the canvas |
| Visualizer.BarFor | components/audio-visualizer.tsx:182-212 | a bar is drawn exactly when it is at least 2 pixels tall, standing on the bottom edge with its hue, lightness, height and a width of at least 1 in range |
| Visualizer.DrawnBars | components/audio-visualizer.tsx:182-212 | the loop draws at most one bar per index, each for a tall enough bin and within the canvas |
| Visualizer.DrawnBarsComplete | components/audio-visualizer.tsx:182-212 | every tall enough bin below the bar count is drawn |
| Visualizer.SilentNoBars | components/audio-visualizer.tsx:187 | a silent spectrum draws no bars |
| Visualizer.DrawBars | components/audio-visualizer.tsx:174-212 | the imperative loop draws `DrawnBars`, one bar per tall enough bin up to the bar count |
| Visualizer.BassCircle | components/audio-visualizer.tsx:215-219 | the circle is drawn exactly when the bass peak exceeds 0.03, with a radius above 112 and at most 500 |
| Visualizer.AvgEnergy | components/audio-visualizer.tsx:179 | the energy of the first 32 bins lies in [0, 1] |
| Visualizer.Glow | components/audio-visualizer.tsx:234-243 | the glow is drawn exactly when the energy exceeds 0.1, with a centre alpha of at most 0.1 |
| Visualizer.Draw | components/audio-visualizer.tsx:152-251 | before any spectrum arrives a frame draws nothing; afterwards it draws `DrawnBars`, `BassCircle` and `Glow` of that spectrum |
| Visualizer.BackgroundTeardown | components/audio-visualizer.tsx:266-276 | the background cleanup cancels the frame loop and releases the analyser, leaving what the canvas shows |
| Visualizer.BackgroundEffect | components/audio-visualizer.tsx:103-150 | without a canvas only the analyser is released; with one the canvas animates exactly when there is an analyser and playback, else is painted static, and an analyser and a frame loop are held exactly while it animates |
| Visualizer.BackgroundAnimatesWhenPlaying | components/audio-visualizer.tsx:103-138 | with a canvas the background animates exactly when there is an analyser and playback, and a static background holds no analyser and no frame loop |
| BlogSlug.DropLeading | app/actions/admin-blog.ts:13 | dropping the leading copies of a character leaves a suffix that does not start with it, and the string itself when it did not |
| BlogSlug.CollapseWs | app/actions/admin-blog.ts:11 | `replace(/\s+/g, "-")` leaves no white space and changes nothing without any |
| BlogSlug.CollapseHyphens | app/actions/admin-blog.ts:12 | `replace(/--+/g, "-")` never lengthens and keeps whether the text starts with '-' |
| BlogSlug.CollapseHyphensChars | app/actions/admin-blog.ts:12 | squeezing hyphens introduces no new characters |
| BlogSlug.CollapseHyphensNoDouble | app/actions/admin-blog.ts:12 | after squeezing no two hyphens are adjacent |
| BlogSlug.CollapseWsChars | app/actions/admin-blog.ts:11 | after replacing white-space runs every character is '-' or one that was kept |
| BlogSlug.CollapseHyphensNoRun | app/actions/admin-blog.ts:12 | squeezing a text without double hyphens changes nothing |
| BlogSlug.KeptChars | app/actions/admin-blog.ts:9-10 | after lower-casing and `replace(/[^\w\s-]/g, "")` only slug characters and white space remain |
| BlogSlug.Slug | app/actions/admin-blog.ts:7-14 | `generateSlug` always yields a slug: only lower-case letters, digits, '_' and '-', no white space and no two adjacent hyphens |
| BlogSlug.SlugShape | app/actions/admin-blog.ts:7-14 | every slug consists of lower-case letters, digits, '_' and '-', with no white space and no double hyphen |
| BlogSlug.SlugIdempotent | app/actions/admin-blog.ts:7-14 | slugifying a slug gives the same slug |
| BlogSlug.RemoveNothing | app/actions/admin-blog.ts:10 | the character filter keeps a text made only of slug characters |
| BlogSlug.EdgeHyphensSurvive | app/actions/admin-blog.ts:11-13 | `trim` runs last and removes only white space, so a title with spaces at both ends gets a slug with hyphens at both ends |
| BlogSlug.EdgeKept | app/actions/admin-blog.ts:9-10 | lower-casing and filtering keep " c " |
| BlogSlug.EdgeWs | app/actions/admin-blog.ts:11 | " c " becomes "-c-" |
| BlogSlug.CollapseWsSingles | app/actions/admin-blog.ts:11 | in a text without two adjacent white-space characters each one becomes a single '-', position for position |
| BlogSlug.CollapseWsLone | app/actions/admin-blog.ts:11 | a lone white-space character at the front becomes one '-' |
| BlogSlug.EdgeHyphens | app/actions/admin-blog.ts:12 | "-c-" has no hyphen run to squeeze |
| BlogSlug.PostFromForm | app/actions/admin-blog.ts:16-31 | the stored row carries the title and its slug, and published is 1 exactly when the form says "true", otherwise 0 (also `updatePost`, lines 37-53) |
| Migration.WithColumnsTwice | scripts/migrate-db.js:64-74 | adding two batches of columns is adding their union |
| Migration.CreateTables | scripts/migrate-db.js:24-51 | exactly the gallery and newsletter tables are added, each with its columns when it was missing, and no existing table changes |
| Migration.WithColumns | scripts/migrate-db.js:64-74 | `ADD COLUMN` keeps the table set, gives the named table exactly its old columns and the new ones, and changes no other table |
| Migration.MigrateSchema | scripts/migrate-db.js:19-201 | a run creates only the gallery and newsletter tables, never touches a table other than releases, tracks and gallery, and creates the two tables with their columns when missing |
| Migration.MigrateOutcome | scripts/migrate-db.js:19-201 | the script exits 0 exactly when the releases and tracks tables exist; the gallery and newsletter tables always exist afterwards; a full run leaves releases with type and slug, tracks with artist, bpm and genre, gallery with display_order; no table loses a column |
| Migration.MissingReleasesStops | scripts/migrate-db.js:53-57 | without a releases table the script stops with status 1 after creating only the missing gallery and newsletter tables |
| Migration.MissingTracksStops | scripts/migrate-db.js:116-120 | without a tracks table the script stops with status 1 after the release columns were added |
| Migration.MigrateIdempotent | scripts/migrate-db.js:19-201 | running the migration twice gives the schema and exit status of running it once |
| Migration.Candidate | scripts/migrate-db.js:95-99 | candidate 0 is the slug itself, candidate k > 0 is the slug, a hyphen and more |
| Migration.CandidateInjective | scripts/migrate-db.js:95-99 | different counters give different candidates |
| Migration.UniqueSlug | scripts/migrate-db.js:94-100 | the loop returns the first candidate not already used |
| Migration.AssignSlugs | scripts/migrate-db.js:84-104 | each release gets the first candidate of its title's slug no earlier release received, all slugs are distinct, and the update counter counts every release |
| Migration.Deduplicate | scripts/migrate-db.js:86-104 | the loop over the slugified titles assigns first-free candidates |
| Migration.AssignedStep | scripts/migrate-db.js:86-104 | one more first-free candidate keeps the assignment first-free |
| Migration.Extend | scripts/migrate-db.js:86-104 | appending a slug keeps every earlier prefix of the assigned list |
| Migration.AssignedUnique | scripts/migrate-db.js:86-103 | the first-free rule fixes the slugs: two first-free assignments over the same slugified titles are equal |
| Migration.AssignedAgree | scripts/migrate-db.js:86-103 | two first-free assignments over the same titles agree on every prefix |
| Migration.AssignedRow | scripts/migrate-db.js:94-100 | in a first-free assignment, release i gets candidate c_i of its slug, every lower counter was already taken by an earlier release, and its slug is new |
| Migration.RowsAgree | scripts/migrate-db.js:94-100 | after the same earlier slugs, the first free counter is unique |
| Migration.RowStep | scripts/migrate-db.js:94-102 | when two runs agree on the first i releases, the first-free rule makes them agree on release i too |
| Migration.FirstFree | scripts/migrate-db.js:96-99 | a free candidate comes no earlier than the first free one |
| Migration.Bases | scripts/migrate-db.js:87-92 | the slugified title of each release, in order |
| Migration.SlugValues | scripts/migrate-db.js:102 | the slug each release was given, in order |
| Migration.SluggedUnique | scripts/migrate-db.js:84-103 | the releases after slug generation are fixed by the releases before it: two results satisfying `Slugged` are equal |
| Migration.Database.constructor | scripts/migrate-db.js:14 | the database opened with its tables and release rows |
| Migration.Database.GenerateSlugs | scripts/migrate-db.js:82-105 | every release keeps its id and title and gets a slug, all distinct; `Slugged`: release i gets `Candidate(Slug(title_i), n)` for the first counter n whose candidate no earlier release received, so the slugs are fixed by the titles and their order |
| Migration.Database.AddColumn | scripts/migrate-db.js:79 | `ALTER TABLE ... ADD COLUMN` adds one column to one table |
| Migration.Database.CreateMissingTables | scripts/migrate-db.js:24-51 | the schema becomes `CreateTables` of the one before and no release row changes |
| Migration.Database.AddReleaseColumns | scripts/migrate-db.js:59-114 | the releases table gains type and slug; when slug was new every release gets the first free candidate of its title's slug (`Slugged`), all distinct, otherwise the rows are untouched |
| Migration.Database.AddTrackColumns | scripts/migrate-db.js:122-144 | the tracks table gains artist, bpm and genre |
| Migration.Database.Migrate | scripts/migrate-db.js:8-201 | without a database file the script exits 0 and changes nothing; otherwise the schema and exit status are those of `MigrateSchema`, and releases get distinct slugs exactly when the slug column is added, each the first free candidate of its title's slug (`Slugged`) |
| VideoEmbed.QueryId | components/video-card.tsx:21 | the id read after "v=" never contains '&' |
| VideoEmbed.YouTubeId | components/video-card.tsx:20-21 | the id after "v=" when that is non-empty, otherwise the last '/'-piece of the url |
| VideoEmbed.EmbedUrl | components/video-card.tsx:18-28 | YouTube links become the embed address with the video id, Vimeo links the player address with the last path piece; any other platform keeps the url |
| VideoEmbed.QueryIdShape | components/video-card.tsx:21 | the id contains neither '&' nor "v=", is empty without "v=", and otherwise is the longest such start of the text after the first "v=": it ends at the first '&', a later "v=" or the end of the link |
| VideoEmbed.PieceIsPrefix | components/video-card.tsx:21 | the first piece of a split is a prefix of the text that ends at the end of the text or at an occurrence of the separator |
| VideoEmbed.NoOccurrenceInPrefix | components/video-card.tsx:21 | a prefix cannot hold what the whole text lacks |
| VideoEmbed.WatchLink | components/video-card.tsx:18-22 | for a watch link with one "v=" followed by further parameters, the embed address carries exactly the characters between "v=" and the first '&' |
| VideoEmbed.DialogPlayer | components/video-card.tsx:63-80 | native videos play their url in a video element, every other platform plays the embed address in a frame |
| VideoEmbed.NativeKeepsUrl | components/video-card.tsx:27-68 | a native video's source is its url unchanged |
| SoundCloudImport.RunLen | app/admin/music/import/page.tsx:34 | a run of characters without a stop character, ending at one or at the end |
| SoundCloudImport.MatchAt | app/admin/music/import/page.tsx:34 | a match at a host occurrence captures a non-empty segment without '/' or '?' |
| SoundCloudImport.ExtractFrom | app/admin/music/import/page.tsx:34 | the search from a position finds nothing when the host does not occur again, and any capture is a clean segment |
| SoundCloudImport.ExtractTrackId | app/admin/music/import/page.tsx:30-36 | the track id is a non-empty segment without '/' or '?', and there is none when the url does not mention the host |
| SoundCloudImport.TrackSegment | app/admin/music/import/page.tsx:30-36 | wherever "soundcloud.com/" is followed by a user segment, '/', a track segment and nothing, '/' or '?', the match there captures exactly the track segment |
| SoundCloudImport.TrackInAddress | app/admin/music/import/page.tsx:30-36 | when the text before the host cannot hold an earlier "soundcloud.com/", the extracted id of prefix + host + user/track + tail is the track segment |
| SoundCloudImport.NoEarlierHost | app/admin/music/import/page.tsx:34 | no host occurrence starts inside such a prefix, so the regular expression's first match is at the host |
| SoundCloudImport.OrdinaryLink | app/admin/music/import/page.tsx:30-36 | the id of https://soundcloud.com/user/track is the track segment |
| SoundCloudImport.RunExact | app/admin/music/import/page.tsx:34 | a run is exactly as long as the stretch before the first stop character |
| SoundCloudImport.SplitTitle | app/admin/music/import/page.tsx:65-68 | a title without " - " is the track title, by "Unknown Artist" |
| SoundCloudImport.SplitTitleAtFirst | app/admin/music/import/page.tsx:65-68 | otherwise the artist is the trimmed text before the first " - " and the title the trimmed rest, later " - " included |
| SoundCloudImport.FetchTrack | app/admin/music/import/page.tsx:38-80 | a url without a track id fails with "Invalid SoundCloud URL format", a failed response with "Failed to fetch track information"; a fetched track has duration 0, the given url and the split title |
| SoundCloudImport.UrlList | app/admin/music/import/page.tsx:110-113 | the bulk list holds only non-empty trimmed lines |
| SoundCloudImport.UrlListLine | app/admin/music/import/page.tsx:110-113 | the text up to the first line break contributes its trimmed self, or nothing when blank, ahead of the list of the rest |
| SoundCloudImport.UrlListSingle | app/admin/music/import/page.tsx:110-113 | text with no line break gives its trimmed self, or the empty list when blank |
| SoundCloudImport.NonBlank | app/admin/music/import/page.tsx:112-113 | the filter keeps at most every line, each clean |
| SoundCloudImport.NonBlankConcat | app/admin/music/import/page.tsx:112-113 | the trim-and-filter pass works line by line: filtering a concatenation concatenates the filtered parts, so each line is kept trimmed or dropped when blank, in order |
| SoundCloudImport.TrimTwice | app/admin/music/import/page.tsx:112 | trimming twice is trimming once |
| SoundCloudImport.Successes | app/admin/music/import/page.tsx:124-133 | no more imports than urls |
| SoundCloudImport.SuccessesConcat | app/admin/music/import/page.tsx:124-133 | the imports of two runs of urls are the imports of the first followed by those of the second |
| SoundCloudImport.SuccessesMember | app/admin/music/import/page.tsx:124-133 | a track is imported exactly when the fetch of some url with its answer produced it |
| SoundCloudImport.Kept | app/admin/music/import/page.tsx:125-132 | one url gives at most one track |
| SoundCloudImport.SuccessesFromUrls | app/admin/music/import/page.tsx:124-133 | every imported track comes from one of the urls, with duration 0 |
| SoundCloudImport.AllFailed | app/admin/music/import/page.tsx:124-133 | when every fetch fails nothing is imported |
| SoundCloudImport.SuccessesStep | app/admin/music/import/page.tsx:124-133 | the imports of a suffix are the import of its first url followed by the rest |
| SoundCloudImport.Gather | app/admin/music/import/page.tsx:122-133 | the loop collects exactly the successful imports, in order, skipping failures |
| SoundCloudImport.ImportPage.constructor | app/admin/music/import/page.tsx:24-27 | the page starts with no input, no tracks and no error |
| SoundCloudImport.ImportPage.Import | app/admin/music/import/page.tsx:82-106 | blank input raises "Please enter a SoundCloud URL"; a fetched track is appended and the input cleared; a failure shows its message and keeps the list and input |
| SoundCloudImport.ImportPage.BulkImport | app/admin/music/import/page.tsx:108-143 | no urls raises the at-least-one error; otherwise the successes are appended and the input cleared, or, with none, the "No tracks were imported" error is shown and nothing changes |
| DebugMeta.OrElse | app/api/debug-meta/route.ts:22-25 | `a \|\| b` on an optional string: a present, non-empty value wins, otherwise the fallback |
| DebugMeta.SiteUrl | app/api/debug-meta/route.ts:22-26 | the site url holds no quote character and neither starts nor ends with white space |
| DebugMeta.SiteUrlDefault | app/api/debug-meta/route.ts:22-26 | with neither variable set the site is the default address |
| DebugMeta.SiteUrlPrefersBase | app/api/debug-meta/route.ts:22-26 | a clean, non-empty base URL is the site address, whatever the site URL variable holds |
| DebugMeta.SiteUrlFallsBack | app/api/debug-meta/route.ts:22-25 | a missing or empty base URL gives the site URL variable's address, and then the default |
| DebugMeta.SiteUrlUnquotes | app/api/debug-meta/route.ts:26 | quotes around a configured address are removed |
| DebugMeta.TrimKeeps | app/api/debug-meta/route.ts:26 | trimming keeps only characters of the text, so it cannot bring quotes back |
| DebugMeta.InfixKeeps | app/api/debug-meta/route.ts:26 | a prefix of a suffix holds only characters of the text |
| DebugMeta.SecureBase | app/api/debug-meta/route.ts:42-44 | an https site stays as it is, an http site has its scheme replaced by https |
| DebugMeta.SchemesDiffer | app/api/debug-meta/route.ts:31-37 | a url cannot start with both "https://" and "http://" |
| DebugMeta.ImageUrl | app/api/debug-meta/route.ts:28-47 | no cover or an empty one gives no image; an https cover stays; an http cover gets https; a relative cover is joined to the secure site url with exactly one '/' |
| DebugMeta.ImageAlwaysHttps | app/api/debug-meta/route.ts:28-47 | whenever the site url has a scheme, every image url produced is https |
| DebugMeta.DebugMetaGet | app/api/debug-meta/route.ts:4-68 | 400 exactly when the slug is missing or empty, 404 exactly when no release has it; otherwise the release with the site url, the release page url and the image url |
| Upload.LastIndexOf | app/api/upload/route.ts:36 | the last position of a character, or none when it does not occur |
| Upload.ExtName | app/api/upload/route.ts:36 | `path.extname`: trailing '/' characters are skipped; the result is empty, or a proper suffix of the last non-empty segment that starts with that segment's last '.' and holds no other '.' |
| Upload.SegmentExt | app/api/upload/route.ts:36 | the extension of a name without trailing '/': empty when its last segment has no '.', starts with its last '.' or is "..", else a proper suffix of that segment from its last '.' |
| Upload.DropTrailingSlashes | app/api/upload/route.ts:36 | the longest prefix not ending in '/', the rest being all '/'; empty for an all-slash name |
| Upload.ExtNameTrailingSlash | app/api/upload/route.ts:36 | appending '/' never changes the extension |
| Upload.ExtNameSlashedName | app/api/upload/route.ts:36 | "x.mp3/" has the extension ".mp3" |
| Upload.ExtNameAllSlashes | app/api/upload/route.ts:36 | a name of '/' characters only has no extension |
| Upload.ExtNameLeadingDots | app/api/upload/route.ts:36 | leading dots do not hide an extension: "..mp3" has ".mp3" |
| Upload.ExtNameLastDot | app/api/upload/route.ts:36 | only the last '.' starts the extension: "song.tar.mp3" has ".mp3" |
| Upload.ExtNameNone | app/api/upload/route.ts:36 | ".mp3", ".." and "song" have no extension |
| Upload.ExtNameAt | app/api/upload/route.ts:36 | in a name without '/' that is not "..", the extension is everything from the last '.' on whenever that '.' is not the first character |
| Upload.NoSlashPiece | app/api/upload/route.ts:36 | a name without '/' is its own last segment |
| Upload.SuffixOfSuffix | app/api/upload/route.ts:59-60 | a suffix of a suffix is a suffix |
| Upload.SplitLastEnds | app/api/upload/route.ts:36 | the last '/'-piece of a path is a suffix of it |
| Upload.Dir | app/api/upload/route.ts:45-50 | the upload folder is never empty: the form's type, or "misc" |
| Upload.Accepted | app/api/upload/route.ts:31-42 | a file whose type is on none of the lists passes only by name: its name, without trailing '/', then ends with an extension of at least four characters (the '.' and three more) |
| Upload.UploadPost | app/api/upload/route.ts:6-77 | no file is refused first, then a file over 25 MB; an accepted file within the limit is stored exactly when the write does not throw, and fails with the 500 "Upload failed" exactly when it does; a file is accepted when its MIME type, or its audio extension, is allowed; the stored name is timestamp-random plus the extension, under /uploads/ and the folder, with the size and type echoed |
| Upload.SizeLimitInclusive | app/api/upload/route.ts:17 | a file of exactly 25 MB is never refused as too large, and is stored when the write succeeds |
| Upload.UnlistedImageRejected | app/api/upload/route.ts:31-42 | an image type outside the list, without an audio extension, is refused as an invalid type |
| Upload.NameKeepsExtension | app/api/upload/route.ts:57-69 | the public url ends with the original extension and starts with the upload folder |
| AlbumArtPlayer.KeyLikeClick | components/album-art-player.tsx:59-64 | Enter and space act exactly like a click (starting playback whenever the album has tracks), and any other key does nothing |
| AlbumArtPlayer.KeySpec | components/album-art-player.tsx:59-64 | a key press keeps volume, shuffle and repeat; only Enter or space on an album with tracks changes anything, and then the album's tracks are queued and playing |
| AlbumArtPlayer.HandleClick | components/album-art-player.tsx:30-47 | a click queues the album and plays its first track, and an empty album changes nothing |
| AlbumArtPlayer.HandleKey | components/album-art-player.tsx:59-64 | a key press reaches `KeySpec` of the session before |
| PlayAlbumButton.ToPlayer | components/play-album-button.tsx:32-38 | each album track keeps its id, title, artist and audio url and takes the album cover |
| PlayAlbumButton.ToPlayerAll | components/play-album-button.tsx:32-38 | the map converts every track, in order |
| PlayAlbumButton.PlayAlbumSpec | components/play-album-button.tsx:28-45 | the handler keeps volume, shuffle, the shuffled copy and repeat; an empty album changes nothing; otherwise the queue has one entry per album track and its first entry is current and playing |
| PlayAlbumButton.EmptyAlbumNoop | components/play-album-button.tsx:29 | an album without tracks changes nothing |
| PlayAlbumButton.PlayAlbumStarts | components/play-album-button.tsx:28-45 | the queue becomes the album's tracks with its cover, the first one is current and playing, and volume, shuffle and repeat are kept |
| PlayAlbumButton.HandlePlay | components/play-album-button.tsx:28-45 | the handler reaches `PlayAlbumSpec` of the session before |
| EmbedPlayer.EmbedFor | components/embed-player.tsx:34-61 | there is an embed exactly when a track or release id is truthy (0 is not); a track wins, with a 400 px frame at /embed/track/, otherwise the release with a 600 px frame at /embed/release/; the code is the iframe for that url and height |
| EmbedPlayer.CodeEmbedsUrl | components/embed-player.tsx:40-46 | the copied code starts with an iframe whose source is the embed url |
| EmbedPlayer.SrcComesFirst | components/embed-player.tsx:42-45 | the iframe text opens with its source attribute |
| EmbedPlayer.ZeroIdIsMissing | components/embed-player.tsx:40-43 | an id of 0 counts as absent |
| EmbedPlayer.PreviewHeight | components/embed-player.tsx:115 | the preview is 600 px exactly when the release id is truthy |
| EmbedPlayer.PreviewMismatch | components/embed-player.tsx:40-120 | with both a track and a release id the code embeds the track at 400 px while the preview shows 600 px |
| EmbedPlayer.PreviewHeightFixed | components/embed-player.tsx:40-46 | a preview height that always equals the height in the copied code |
| EmbedPlayer.PreviewMatchesCode | components/embed-player.tsx:40-120 | the corrected preview agrees with the code, and with the original preview whenever no track id is given |
| Gallery.InCategory | app/gallery/page.tsx:20 | the filter keeps exactly the images of the category |
| Gallery.Tab | app/gallery/page.tsx:16-20 | the "all" tab is every image, any other tab holds exactly the images of its category, and no tab is longer than the list |
| Gallery.Build | app/gallery/page.tsx:16-22 | the reduce gives each listed tab its images and keeps earlier entries |
| Gallery.ByCategory | app/gallery/page.tsx:15-22 | there are exactly the tabs all, live, studio and press; "all" holds every image and each other tab the images of its category |
| Gallery.TabNames | app/gallery/page.tsx:15 | the four tab names |
| Gallery.InCategoryOrder | app/gallery/page.tsx:8-20 | the filter keeps the newest-first order of the query: filtering a split list is filtering its parts |
| Gallery.OnlyUnderAll | app/gallery/page.tsx:15-22 | an image of another category (say "general") appears only under "all" |
| Gallery.ListedTwice | app/gallery/page.tsx:15-22 | an image of a listed category appears under "all" and under its own tab |
| Gallery.EmptyNotice | app/gallery/page.tsx:45-48 | a tab shows the empty notice exactly when no image has its category, and "all" only when there are no images |
| Middleware.Route | middleware.ts:5-30 | an admin path without a session, or with one that does not decrypt, redirects to the login page; the login page with a valid session redirects to admin, otherwise passes |
| Middleware.LoginIsNotAdmin | middleware.ts:9-22 | the login page is not under the admin prefix, so the two rules never clash |
| Middleware.AdminNeedsValidSession | middleware.ts:9-19 | an admin path passes exactly when the session decrypts, and never redirects to admin |
| Middleware.OtherPathsPass | middleware.ts:29 | every other path passes through |
| Middleware.PrefixProtects | middleware.ts:9-12 | everything starting with "/admin", not only the matcher's paths, needs a session |
| Middleware.MatchedIsGuarded | middleware.ts:32-34 | every matched path other than the login page is under the admin prefix |
| OgImage.Get | app/api/og/route.tsx:10-12 | `searchParams.get` returns the value of the first pair with the name, or nothing when no pair has it |
| OgImage.Slice | app/api/og/route.tsx:12 | `slice(0, n)` counts UTF-16 code units: the result is the longest prefix of whole characters within n units |
| OgImage.Param | app/api/og/route.tsx:10-19 | a missing parameter gives the default; a present one is cut to the limit by `slice` |
| OgImage.Render | app/api/og/route.tsx:5-103 | a rendering failure answers 500 "Failed to generate the image"; otherwise a 1200 x 630 image whose title is the title parameter cut to 100 code units (default "Artist Portfolio") and whose description is the description parameter cut to 200 code units (default "Electronic Music Producer & Sound Designer") |
| OgImage.NoParamsDefaults | app/api/og/route.tsx:10-19 | no parameters give the default title and description |
| OgImage.EmptyIsNotAbsent | app/api/og/route.tsx:10-13 | an empty title parameter gives an empty title, not the default |
| OgImage.LongTitleCut | app/api/og/route.tsx:12 | a long title without surrogate pairs is cut to its first 100 characters |
| OgImage.DescriptionCut | app/api/og/route.tsx:16-19 | a missing description gives the default, and a long one without surrogate pairs is cut to exactly its first 200 characters |
| OgImage.ParamStable | app/api/og/route.tsx:10-13 | feeding the rendered title back as the parameter renders the same title |
| OgImage.SliceKeepsPairs | app/api/og/route.tsx:12 | a character outside the Basic Multilingual Plane counts as two code units toward the limit |
| OgImage.FirstValueWins | app/api/og/route.tsx:10-12 | with a repeated title parameter the first one is used |
| SettingsStore.Lookup | app/actions/admin-settings.ts:40-42 | a key is answered with its stored value, or with nothing exactly when it is missing or its value is empty |
| SettingsStore.Seed | app/actions/admin-settings.ts:24-29 | seeding adds the three defaults under keys that are absent and never overwrites a stored value |
| SettingsStore.Override | app/actions/admin-settings.ts:67-90 | a replacing write: the written entries win and every other key keeps its value |
| SettingsStore.Ensured | app/actions/admin-settings.ts:7-31 | ensuring the table never changes a stored key; an existing table is left as it is, a new one gains exactly the default keys |
| SettingsStore.FreshTableHoldsDefaults | app/actions/admin-settings.ts:7-31 | a table created on first use holds exactly the defaults; the title and email are answered and the empty hero image reads as nothing |
| SettingsStore.SeedIdempotent | app/actions/admin-settings.ts:24-29 | seeding twice is seeding once, and stored keys keep their answers |
| SettingsStore.SingleEntryBatch | app/actions/admin-settings.ts:64-99 | a batch of one entry has the effect of a single update |
| SettingsStore.LookupAfterUpdate | app/actions/admin-settings.ts:40-70 | writing a key changes its answer to the value (nothing when empty) and leaves every other key's answer alone |
| SettingsStore.OverrideTwice | app/actions/admin-settings.ts:80-91 | two batches in a row are one batch of their union with the later values winning |
| SettingsStore.RunBatch | app/actions/admin-settings.ts:86-90 | the transaction's loop succeeds exactly when no key's write fails, and then the working table is the table with the batch written over it |
| SettingsStore.SameMap | app/actions/admin-settings.ts:54-57 | two tables agreeing on keys and values are equal |
| SettingsStore.Store.constructor | app/actions/admin-settings.ts:14 | before first use the table does not exist and holds nothing |
| SettingsStore.Store.EnsureTable | app/actions/admin-settings.ts:7-35 | afterwards the table exists; it is seeded only when it did not exist before |
| SettingsStore.Store.Get | app/actions/admin-settings.ts:37-47 | the table is ensured and the answer is the stored non-empty value or nothing |
| SettingsStore.Store.GetAll | app/actions/admin-settings.ts:49-62 | the table is ensured and the folded record holds exactly its rows |
| SettingsStore.Store.UpdateSetting | app/actions/admin-settings.ts:64-78 | the table is ensured; success exactly when the write does not fail, and then the key holds the value and nothing else changes |
| SettingsStore.Store.UpdateSettings | app/actions/admin-settings.ts:80-99 | the table is ensured; success exactly when no write fails, then the batch is written over the table, otherwise the whole batch is rolled back |
| Guestbook.Validate | app/actions/guestbook.ts:7-20 | the form passes exactly when the name has at least 2 and the message at least 5 UTF-16 code units, as JavaScript lengths count; otherwise the first problem is reported, name before message, a missing field as not a string, with the schema's texts |
| Guestbook.AstralNameAccepted | app/actions/guestbook.ts:8 | a one-character name outside the Basic Multilingual Plane is two code units and meets the minimum, while a one-letter name does not |
| Guestbook.Listing | app/actions/guestbook.ts:38-53 | a listing is never longer than the table |
| Guestbook.ApproveIn | app/actions/guestbook.ts:62-65 | every row with the id becomes approved and every other row is unchanged, in place |
| Guestbook.DeleteIn | app/actions/guestbook.ts:77-78 | exactly the rows without the id remain |
| Guestbook.ListingMembers | app/actions/guestbook.ts:39-51 | the listing holds exactly the entries with its approval flag |
| Guestbook.ListingsPartition | app/actions/guestbook.ts:39-51 | the approved and the pending listings together are the table, each entry once |
| Guestbook.ListingNewestFirst | app/actions/guestbook.ts:39-51 | when rows were inserted in time order, each listing is newest first |
| Guestbook.ApproveMoves | app/actions/guestbook.ts:60-73 | approving takes the entry out of the pending listing, puts it in the approved one, keeps every other entry where it was, and is idempotent |
| Guestbook.DeleteRemoves | app/actions/guestbook.ts:75-86 | deleting removes the entry from the listings and keeps every other entry listed |
| Guestbook.AppendShows | app/actions/guestbook.ts:22-53 | a new entry heads the pending listing and leaves the public listing unchanged |
| Guestbook.DeleteKeepsUnique | app/actions/guestbook.ts:77-78 | deleting keeps the ids unique |
| Guestbook.Book.constructor | app/actions/guestbook.ts:22-26 | the table starts empty, with ids starting at 1 |
| Guestbook.Book.Submit | app/actions/guestbook.ts:12-34 | a form that fails validation returns the first problem and a failing insert "Failed to submit entry", both storing nothing; otherwise one unapproved entry with the next id and the current time is appended; ids stay unique |
| Guestbook.Book.Approved | app/actions/guestbook.ts:36-46 | the public listing holds exactly the approved entries |
| Guestbook.Book.Pending | app/actions/guestbook.ts:48-58 | the moderation listing holds exactly the pending entries |
| Guestbook.Book.Approve | app/actions/guestbook.ts:60-73 | a failure returns "Failed to approve entry" and changes nothing; otherwise the entry with the id is approved |
| Guestbook.Book.Delete | app/actions/guestbook.ts:75-86 | a failure returns "Failed to delete entry" and changes nothing; otherwise the entry with the id is removed; ids stay unique |
| Newsletter.Subscribe | app/api/newsletter/route.ts:4-42 | a missing, empty or '@'-less address is refused as invalid, a known address as already subscribed, a failing insert answers failure; only a new valid address is added, and then the list gains exactly it |
| Newsletter.Invalid | app/api/newsletter/route.ts:8 | an address is refused exactly when it is missing or has no '@' character (the empty address has none) |
| Newsletter.AtSign | app/api/newsletter/route.ts:8 | `includes("@")` holds exactly when some character is '@' |
| Newsletter.SubscribeTwice | app/api/newsletter/route.ts:16-26 | signing up the same address twice adds it once and the second attempt is refused |
| Newsletter.SubscribeOnlyAdds | app/api/newsletter/route.ts:4-42 | no outcome removes an address, and at most the given one is added |
| Newsletter.CaseSensitive | app/api/newsletter/route.ts:16-19 | duplicates are found by exact comparison, so an address differing in case is added |
| Newsletter.List.constructor | app/api/newsletter/route.ts:29-31 | the subscriber table starts empty |
| Newsletter.List.Post | app/api/newsletter/route.ts:4-42 | the request's response and the new table are `Subscribe` of the table before |
| BlogCard.WordCount | components/blog-card.tsx:24 | splitting on white-space runs always gives at least one piece |
| BlogCard.WordCountSplit | components/blog-card.tsx:24 | on text whose only white space is single ' ' characters, the count equals the number of pieces `split(" ")` gives, the reference for splitting on runs |
| BlogCard.WsRunsSkip | components/blog-card.tsx:24 | characters before any white space do not change the number of white-space runs |
| BlogCard.SpaceFree | components/blog-card.tsx:24 | before the first ' ' a single-spaced text holds no white space |
| BlogCard.AfterSpace | components/blog-card.tsx:24 | a single ' ' is one run, and the text after it is single-spaced again |
| BlogCard.Minutes | components/blog-card.tsx:25 | the minutes are the least whole number whose 200 words cover the count |
| BlogCard.ReadingTime | components/blog-card.tsx:22-26 | every text, even an empty one, reads in at least one minute |
| BlogCard.MinuteBoundary | components/blog-card.tsx:23-25 | 200 words take one minute and 201 take two |
| BlogCard.MinutesMonotone | components/blog-card.tsx:25 | more words never take less time |
| BlogCard.SingleWord | components/blog-card.tsx:24 | a text without white space is one word and one minute |
| BlogCard.LeadingSpaceCounts | components/blog-card.tsx:24 | leading white space adds an empty piece to the count |
| BlogCard.TrailingSpaceCounts | components/blog-card.tsx:24 | trailing white space adds an empty piece to the count |
| BlogCard.ShownTags | components/blog-card.tsx:47 | at most the first three tags are shown, in order |
| BlogCard.Card | components/blog-card.tsx:28-75 | the card links to /blog/ and the slug, shows at most the first three tags, and estimates from the excerpt, not the body |
| ShareButtons.Encode | components/share-buttons.tsx:59-61 | `encodeURIComponent` only emits unreserved characters and escapes, and never shortens its input |
| ShareButtons.EncodeUnreserved | components/share-buttons.tsx:59-61 | text made of unreserved characters is left as it is |
| ShareButtons.EncodeSpace | components/share-buttons.tsx:67 | a space is encoded as %20 |
| ShareButtons.EncodeRoundTrip | components/share-buttons.tsx:59-61 | decoding the encoding of ASCII text gives the text back |
| ShareButtons.EncodedNoAmp | components/share-buttons.tsx:59-69 | an encoded component never contains '&', so it cannot break the query string |
| ShareButtons.TwitterLink | components/share-buttons.tsx:64 | the tweet link carries the encoded url and title, and the encoded description only when that is non-empty |
| ShareButtons.WhatsAppLink | components/share-buttons.tsx:67 | the message starts with the encoded title and ends with %20 and the encoded url |
| ShareButtons.TwitterDescriptionIff | components/share-buttons.tsx:64 | the tweet link has a description parameter exactly when the description is non-empty |
| ShareButtons.ShareLinks | components/share-buttons.tsx:63-70 | the share links are the tweet and WhatsApp links above and the fixed-prefix links of the other networks |
| ShareButtons.LinksCarryAddress | components/share-buttons.tsx:63-70 | every network's link carries the encoded share url in its address parameter |
| ShareButtons.TwitterCarriesAddress | components/share-buttons.tsx:64 | the tweet link starts with the intent address, the encoded url and the text parameter |
| ShareButtons.OnlyTwitterReadsDescription | components/share-buttons.tsx:63-70 | the description changes no link except the tweet link |
| ShareButtons.CopyToClipboard | components/share-buttons.tsx:74-83 | a write that succeeds puts the text on the clipboard; one that fails shows "Failed to copy to clipboard" |
| ShareButtons.EmbedCode | components/share-buttons.tsx:72 | the embed code is the iframe opening up to `src="`, the share url verbatim, then the closing quote and the fixed width, height, frameborder and allow attributes |
| ShareButtons.EmbedSrcIsShareUrl | components/share-buttons.tsx:72 | the embed code's iframe source is the share url when the url has no quote |
| ShareButtons.HandleNativeShare | components/share-buttons.tsx:85-101 | with the native share sheet the title, the description or else the title, and the share url are shared; without it the share url is copied |
| ShareButtons.ShareUrl | components/share-buttons.tsx:56-58 | the share url is the origin followed by the page's url, nothing between |
| ShareButtons.ShareCarriesUrl | components/share-buttons.tsx:56-101 | whichever way, what is shared is the origin followed by the page's url |
| Tour.Upcoming | app/tour/page.tsx:16-18 | the upcoming tab holds exactly the events dated now or later |
| Tour.Past | app/tour/page.tsx:19 | the past tab holds exactly the events dated before now |
| Tour.TabsPartition | app/tour/page.tsx:16-19 | when every date parses, the two tabs together hold every event once |
| Tour.NowIsUpcoming | app/tour/page.tsx:17 | an event dated exactly now is upcoming, not past |
| Tour.UnparseableHidden | app/tour/page.tsx:16-19 | an event whose date does not parse is on neither tab |
| Tour.UpcomingAscending | app/tour/page.tsx:8-18 | the upcoming tab keeps the query's ascending date order |
| Tour.PastAscending | app/tour/page.tsx:8-19 | the past filter keeps the ascending date order |
| Tour.ReversedDescending | app/tour/page.tsx:59 | reversing an ascending list gives a descending one |
| Tour.Reversed | app/tour/page.tsx:59 | the reversed list has the same length and position k holds the entry k places from the end |
| Tour.PastNewestFirst | app/tour/page.tsx:8-60 | the past tab as shown is newest first |
| Tour.Reverse | app/tour/page.tsx:59 | `reverse` turns the array around in place |
| Tour.Tabs | app/tour/page.tsx:12-60 | the page shows the upcoming events in query order and the past events reversed |
| TrackCard.ToPlayer | components/track-card.tsx:24-30 | the player track keeps the card's id, title, artist and audio url and has no artwork |
| TrackCard.FormatDuration | components/track-card.tsx:33-38 | an absent or zero duration shows nothing, and any other duration shows something |
| TrackCard.DurationReadsBack | components/track-card.tsx:33-38 | a positive duration shows as minutes, a colon and two-digit seconds that read back to it |
| TrackCard.HandlePlay | components/track-card.tsx:22-31 | a click plays the card's track as the player context's playTrack does |
| TrackList.ToPlayer | components/track-list.tsx:44-62 | the player track keeps id, title, artist and audio url and takes the release cover |
| TrackList.ToPlayerAll | components/track-list.tsx:44-50 | every listed track is converted, in order |
| TrackList.HandlePlaySpec | components/track-list.tsx:39-64 | a click keeps volume, shuffle, the shuffled copy and repeat; on the current track it flips playing and keeps the queue; on another it queues one entry per listed track and plays the clicked one |
| TrackList.ClickCurrentToggles | components/track-list.tsx:39-41 | clicking the current track toggles playing and nothing else, its icon flips, and a second click undoes the first |
| TrackList.ClickOtherPlays | components/track-list.tsx:42-63 | clicking another track queues the list, makes that track current and playing, and keeps volume, shuffle and repeat |
| TrackList.ListTime | components/track-list.tsx:66-71 | an absent or zero time shows "-", any other shows at least "m:ss" |
| TrackList.ListTimeReadsBack | components/track-list.tsx:66-71 | a positive time shows its whole minutes and its whole seconds within the minute, as two digits |
| TrackList.HandlePlay | components/track-list.tsx:39-64 | a click reaches `HandlePlaySpec` of the session before |

## Left out

- Native browser audio is not modelled. That covers AudioContext and media-element loading, the 10 s load timeout race, the `canplaythrough`/`error` events and WaveSurfer's own decoding and drawing. A load is an abstract success or failure, because timing and concurrency are outside a sequential model.
- Scheduling and rendering are not modelled: `requestAnimationFrame`, `setInterval`/`setTimeout`, React effect scheduling, canvas drawing, CSS and JSX markup. Only the values the code computes, and the throttle state with the clock passed in, are modelled.
- The copied-state timers in the embed player and the share buttons are left out. They only reset a UI flag after two seconds.
- localStorage persistence and JSON (de)serialisation in context/player-context.tsx:59-93 are left out, because they are browser storage. Hydration is the Player constructor, and that constructor never sets `isPlaying`.
- SQL and better-sqlite3 are not modelled. Tables are maps, sets or sequences of rows. Queries are the functions that define their result, with `ORDER BY` given as the order of the rows.
- The schema scripts other than scripts/migrate-db.js and the plain CRUD actions for music, events, videos and gallery are not part of this model.
- The migration slug loop is modelled as one pass that computes the slugs and a second pass that writes them. The writes do not affect later uniqueness checks except through the slugs already assigned, so the result is the same.
- The network and file I/O are not modelled: the SoundCloud oEmbed fetch, the upload's `writeFile`/`mkdir` and the client-side fetches. Their results or failures are parameters.
- JWT signing and verification, bcrypt and SHA-256 are not modelled. Middleware takes the outcome of `decrypt` as a parameter.
- Floating point is not modelled. Volumes, times, samples and ratios are `real`, with no IEEE-754 rounding, NaN or Infinity. The `isFinite` guards are boolean inputs, and an unknown duration or an unparseable date is an absent value.
- Strings are sequences of Unicode scalar values, as Dafny's `char` is. Where the source depends on JavaScript's UTF-16 lengths (the guestbook minimums, the OG `slice`), the model counts code units with `Strings.Utf16Length`. Elsewhere positions count characters; every other position the modelled code uses comes from `indexOf` or `split` on ASCII text, so the choice does not change the result. Unicode case mapping beyond ASCII, and the `\s` class beyond the white-space characters in `Strings.IsWs`, are not modelled.
- OgImage.Slice: where `slice(0, n)` would cut a surrogate pair in half, JavaScript keeps a lone high surrogate. A Dafny string cannot hold one, so the model stops before the pair, one code unit short.
- OgImage reads already-decoded query pairs. URL percent-decoding of the request is left out.
- The Media Session wrapper and the presentational components and static pages are left out. They hold no logic beyond passing values through.
- A rejected `play()` is only logged by the source. The model keeps no error state for it either.
- `initialize` in lib/audio-manager.ts has no re-entrancy guard. It always cleans up first, and the model follows the code.
- At the end of the playlist with repeat off, `playNext` leaves `isPlaying` unchanged. A description of that behaviour as "stopping playback" disagrees with the code, and the model follows the code (context/player-context.tsx:156-163).
- `addToQueue` and `playNextInQueue` do not promise ids unique across the playlist. The model proves only what the code does.
- PlayerContext.Player.ReorderTracks: requires `from < |playlist|`. For a larger index JavaScript's `splice` would insert `undefined`, which a sequence of tracks cannot hold.
- QueueView.QueuePanel.DragEnd: requires the dragged rows to lie within the upcoming tracks. The rendered rows guarantee this, but a playlist change in the middle of a drag is not modelled.
- The catch blocks that swallow storage errors are left out: the settings `getSetting`/`getAllSettings` (which answer `null` and `{}`), the guestbook listings (which answer `[]`), and the newsletter route's 500 on a body that is not JSON. A database that throws on reads and a malformed request body are outside the model, which reads already-parsed rows and bodies.
- BlogCard: the post's tags column is a JSON string parsed with `JSON.parse` (components/blog-card.tsx:29). The model takes the parsed list, so a malformed column, which throws in the source, is not modelled.
- FrequencyAnalysis.AudioAnalyzer.Start: a second `start` without `stop` overwrites the pending frame id, so the earlier frame loop keeps running and can no longer be cancelled. The model keeps a single frame id and does not represent the orphaned loop.
- `Math.random` is not modelled. The shuffle takes its draws in [0, 1) as input, each turned into a swap index `j <= i` by `Math.floor(u * (i + 1))`, and upload file names take their random part as input.

## Findings

| source | as written | input that shows it | evidently intended | confidence | as-written member | corrected member |
|---|---|---|---|---|---|---|
| components/embed-player.tsx:115 | the preview iframe's height tests `releaseId`, while the embed code (lines 40-46) prefers the track whenever a track id is given | trackId 1 and releaseId 2: the copied code embeds the track at height 400, the preview shows it at 600 | the preview shows the same height as the code the visitor copies; the one call site in the repository (app/music/[slug]/page.tsx:193) passes only a release id, so the mismatch is latent there | not executed | EmbedPlayer.PreviewMismatch | EmbedPlayer.PreviewMatchesCode |
