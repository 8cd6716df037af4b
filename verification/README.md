# MPC Architect — a Dafny model of its rules

MPC Architect is a browser tool for building sample packs for Akai MPC
hardware. Its logic is small rules spread over a React front end. This
project models those rules in Dafny as immutable data and pure functions, and
proves what they promise:

- **MIDI hub** (`MidiService`, services/midiService.ts):
  - host access and port enumeration;
  - the callback set and its fan-out of incoming messages;
  - the bytes of note-on/note-off (`0x9n`/`0x8n`) and control-change (`0xBn`) messages, and of the System Real-Time start/continue/stop bytes (`0xFA`/`0xFB`/`0xFC`) of the MIDI 1.0 Detailed Specification;
  - target filtering by output id.
  
  A send is returned as a record `(output id, bytes, delay)` instead of being performed.
- **Bit operations** (`Bits`): JavaScript's `&` and `|` on non-negative integers, defined one bit at a time, with the nibble facts the MIDI code relies on.
- **Sample engine** (`AudioEngine`, services/audioEngine.ts):
  - the id-keyed buffer cache, which is only ever extended;
  - the parameters of a playback voice;
  - the one-pass peak / sum-of-squares scan of `analyzeFeatures`, with its `|| 1e-6` floor substitution.
- **Persistence** (`Persistence`, hooks/usePersistence.ts):
  - the rule that picks the initial value from stored text, given an abstract parser;
  - the write-back after each change;
  - the whitespace sanitiser of the export file name.
- **Profile list** (`ExportSettings`, components/ExportSettings.tsx):
  - create, delete, update and select over the list of hardware profiles and the active id;
  - resolution of the profile the form shows;
  - the effect that pushes the active channel into the hub.
- **Program editor** (`PackBuilder`, components/PackBuilder.tsx):
  - the fallback profile;
  - the note-on test and the pad index of an incoming message;
  - pad audition;
  - the echo note a pad click sends;
  - pad edits and deletes;
  - the smart-layout replacement of all assignments.
- **Pad grid** (`MpcGrid` and `Constants`, components/MPCGrid.tsx and constants.tsx):
  - the 4 × 4 layout and its labels;
  - button order, style precedence and the base-name caption.
- **Spectrum decimation** (`AudioAnalysis`, components/AudioAnalysis.tsx): every 16th frequency bin.
- **Batch classifier** (`AiClassifier`, components/AIClassifier.tsx): the line split, the blank filter and the result-retention rule.

`Wrappers` holds `Option`, `Result` and `Distinct`, the duplicate-free sequences that stand for JavaScript sets and key lists. `Text` holds JavaScript's white-space class, which both `\s` and `trim` use. `Types` holds the records of types.ts and the object-spread merge of a partial update.

The note-on test is modelled as the code writes it: `(status & 0xF0) === (0x90 | channel) && data2 > 0`. The mask clears the low nibble, so the test holds only for a profile on channel 0. Such a profile then accepts note-ons arriving on any of the 16 channels, and a profile on any other channel accepts nothing (`PackBuilder.NoteOnAccepts`, `PackBuilder.NonZeroChannelDeaf`). A reader might expect a profile on channel n to accept note-ons on channel n only. The code does not do that.

## Model

| member | source | states |
|---|---|---|
| Types.MergePadLaws | components/PackBuilder.tsx:116 | Spreading an empty partial assignment changes nothing. Spreading a complete one yields it. Spreading the same update twice is spreading it once. |
| Types.MergeProfileKeepsId | components/ExportSettings.tsx:74 | A profile update keeps the profile's id unless the update itself carries an id, in which case the result has that id. |
| Constants.FlattenAppend | components/MPCGrid.tsx:15 | `flat()` distributes over concatenation of row lists. |
| Constants.FlattenLength | components/MPCGrid.tsx:15 | Rows of equal width w flatten to rows × w entries. |
| Constants.LayoutShape | constants.tsx:11-16 | The layout has 4 rows of 4. Entry (r, c) is 4·(3−r)+c+1, so numbers rise by 1 to the right and by 4 upwards. The last row is 1..4 and the first is 13..16. |
| Constants.LayoutIsPermutation | constants.tsx:11-16 | The flattened layout has 16 entries. They are pairwise distinct, and a number occurs in it exactly when it is a pad 1..16. |
| Constants.LabelsCoverPads | constants.tsx:18-23 | The label table has an entry exactly for every pad 1..16. |
| Bits.MaskHighNibble | components/PackBuilder.tsx:75 | `s & 0xF0` of a byte is 16·⌊s/16⌋: the high nibble is kept and the channel is cleared. |
| Bits.OrIntoHighNibble | services/midiService.ts:51-52 | OR-ing a value below 16 into a multiple of 16 adds it. |
| Bits.OrChannel | services/midiService.ts:51-52 | OR-ing a channel into 0x80, 0x90 or 0xB0 equals adding it to the status. |
| Persistence.LoadInitial | hooks/usePersistence.ts:5-15 | Missing or empty stored text gives the default. Text the parser rejects gives the default. Parsed text gives exactly what it parses to. |
| Persistence.WriteBack | hooks/usePersistence.ts:17-19 | After a change, the entry under the key holds the serialised value, and every other key is kept. |
| Persistence.WriteThenLoad | hooks/usePersistence.ts:5-19 | A value written back is the next initial value if its non-empty text parses back to it. If its text is rejected, the next initial value is the default. Other keys load as before. |
| Persistence.ExportFileName | hooks/usePersistence.ts:29 | The download name is the given file name, sanitized, followed by `_config.json`, and it contains no white space. |
| Persistence.SanitizedHasNoSpace | hooks/usePersistence.ts:29 | The sanitised name contains no white space. |
| Persistence.SanitizeKeepsPlainNames | hooks/usePersistence.ts:29 | A name without white space is unchanged. |
| Persistence.SanitizeIdempotent | hooks/usePersistence.ts:29 | Sanitising twice equals sanitising once. |
| Persistence.SanitizeRun | hooks/usePersistence.ts:29 | A non-empty run consisting only of white space becomes a single `_`. |
| Persistence.SanitizeVisible | hooks/usePersistence.ts:29 | A character other than white space is kept. |
| Persistence.SanitizeAppend | hooks/usePersistence.ts:29 | Sanitising distributes over a split that does not cut a white-space run. With the two lemmas above: each maximal run maps to one `_`, and every other character is kept in order. |
| MidiService.UpdateDevices | services/midiService.ts:28-31 | Without access nothing changes. With access both port lists are replaced by the host's enumeration, and the callbacks and default channel are untouched. |
| MidiService.Initialize | services/midiService.ts:11-26 | The result is true exactly when the API is present and access is granted. On false, the hub is unchanged. On true, access is recorded and the ports are enumerated. Consistency is preserved. |
| MidiService.Without | services/midiService.ts:45 | `Set.delete`: removes every occurrence of the element and keeps all other members in order. Distinctness is preserved. |
| MidiService.OnMessage | services/midiService.ts:42-43 | `Set.add`: the callback becomes a member. Re-adding a member changes nothing, and nothing else changes. |
| MidiService.Unsubscribe | services/midiService.ts:44-46 | The returned cleanup removes exactly that callback, and every other registration is kept. |
| MidiService.WithoutAppend | services/midiService.ts:45 | Removal distributes over concatenation, so the survivors keep their relative order. |
| MidiService.WithoutOne | services/midiService.ts:45 | A one-element sequence loses its element exactly when it is the removed one. |
| MidiService.SubscribeThenUnsubscribe | services/midiService.ts:42-47 | Registering a new callback and then calling its cleanup restores the hub exactly. |
| MidiService.Receive | services/midiService.ts:33-37 | A message on an enumerated input is delivered once to every callback, in set order, with status, data1, data2 (missing bytes are `undefined`) and the input's id. Unenumerated ports deliver nothing. |
| MidiService.WithId | services/midiService.ts:55 | The filter keeps exactly the outputs whose id equals the target, and never lengthens the list. |
| MidiService.WithIdAppend | services/midiService.ts:55 | Filtering distributes over concatenation, so the kept outputs stay in list order. |
| MidiService.WithIdOne | services/midiService.ts:55 | A single output is kept exactly when its id matches. |
| MidiService.Targets | services/midiService.ts:54-56 | An absent or empty target id addresses all outputs in order. Otherwise the addressed outputs are the id filter of the list, that is, exactly the outputs with that id, in list order. |
| MidiService.NoteSends | services/midiService.ts:58-61 | Each addressed output gets exactly one note-on with delay 0 and then one note-off after the duration, output by output. |
| MidiService.SendNote | services/midiService.ts:49-62 | Note-on `[0x90+ch, note, velocity]` and note-off `[0x80+ch, note, 0]` go to the addressed outputs. The channel defaults to the hub's, the velocity to 100 and the duration to 200. |
| MidiService.CcValue | services/midiService.ts:66 | The CC data byte lies in 0..127. It is the floor of the value within range, 0 below and 127 above. |
| MidiService.SendCC | services/midiService.ts:64-75 | One message `[0xB0+ch, cc, clamped value]` goes to each addressed output. |
| MidiService.TransportCode | services/midiService.ts:78 | Every transport code is a System Real-Time byte (≥ 0xF8). |
| MidiService.TransportCodesDistinct | services/midiService.ts:78 | Start, stop and continue have pairwise distinct codes. |
| MidiService.SendTransport | services/midiService.ts:77-86 | One single-byte message goes to each addressed output. |
| MidiService.NoAccessNoSends | services/midiService.ts:29-31 | A consistent hub that was never granted access sends nothing: no notes, no CC, no transport. |
| AudioEngine.LoadSample | services/audioEngine.ts:18-26 | A hit returns the cached buffer without fetching. A successful miss caches and returns the decoded buffer. A failed miss leaves the cache unchanged. The cache is only extended. |
| AudioEngine.SecondLoadHits | services/audioEngine.ts:19-25 | After a successful load, the next load of the same id returns the same buffer without fetching, whatever the network would deliver. |
| AudioEngine.LoadAll | services/audioEngine.ts:19-24 | In sequential use, entries are never removed or overwritten. Every key of the result was cached before or requested. |
| AudioEngine.PlayBuffer | services/audioEngine.ts:28-36 | The voice plays the given buffer. Its playback rate is the pitch and its gain the velocity, each defaulting to 1. |
| AudioEngine.MaxAbs | services/audioEngine.ts:58-63 | The peak is ≥ 0 and ≥ every sample magnitude. It equals some sample magnitude, or 0. |
| AudioEngine.SumSquaresOfSilence | services/audioEngine.ts:59-65 | The sum of squares is never negative, and it is zero for silence. |
| AudioEngine.SumSquaresOfSound | services/audioEngine.ts:59-65 | A buffer with one non-zero sample has a positive sum of squares. |
| AudioEngine.Scan | services/audioEngine.ts:58-65 | The one-pass loop computes exactly the peak magnitude and the sum of squares of the samples. |
| AudioEngine.PeakStep | services/audioEngine.ts:62-63 | Taking in one sample raises the running peak to that sample's magnitude when it is larger. |
| AudioEngine.SumStep | services/audioEngine.ts:64 | Taking in one sample adds its square to the running sum. |
| AudioEngine.AnalyzeFeatures | services/audioEngine.ts:56-76 | The features are those defined over the whole buffer: peak and mean square with the zero floor, plus duration and sample rate. |
| AudioEngine.FeaturesOfLevels | services/audioEngine.ts:58-69 | A reported peak is positive and is the largest magnitude. The peak falls to the floor exactly for a silent buffer. The mean square falls to the floor exactly for an empty channel or a zero sum, which is exactly when the buffer is silent. Otherwise the mean square is positive and is the sum over the length. |
| AudioEngine.SilentBufferFloors | services/audioEngine.ts:68-69 | A silent buffer reports the 1e-6 floor for both levels, never zero. For the RMS level the floor replaces the root, so the carried mean square corresponds to 1e-6 squared. |
| AudioEngine.OneFullScaleSample | services/audioEngine.ts:58-69 | One full-scale sample among n zeros gives peak 1 and mean square 1/(n+1). |
| ExportSettings.DefaultsResolve | components/ExportSettings.tsx:15-31 | The default list holds one profile, whose id is the default active id. |
| ExportSettings.CreateProfile | components/ExportSettings.tsx:46-62 | Exactly one profile is appended and made active. It has channel 0, base note 36, sync off, and four macros with ids and CCs 1..4. The old profiles are kept. |
| ExportSettings.CreateKeepsIdsUnique | components/ExportSettings.tsx:46-62 | With a fresh id, the ids stay unique and the new profile is the one the form shows. |
| ExportSettings.RemoveId | components/ExportSettings.tsx:66 | The filter keeps exactly the profiles with another id. |
| ExportSettings.RemoveIdAppend | components/ExportSettings.tsx:66 | The filter distributes over concatenation, so the survivors keep their order. |
| ExportSettings.RemoveUniqueId | components/ExportSettings.tsx:66 | With unique ids, removing a present id drops exactly one profile, and removing an absent id drops none. |
| ExportSettings.SubsequenceUnique | components/ExportSettings.tsx:66 | Filtering keeps the ids unique. |
| ExportSettings.DeleteProfile | components/ExportSettings.tsx:64-71 | A list of ≤ 1 profile is untouched. Otherwise every profile with the id is removed. Deleting the active profile activates the first survivor; deleting any other keeps the active id. Reading the first survivor of an empty list fails, leaving an empty list. |
| ExportSettings.DeleteKeepsOne | components/ExportSettings.tsx:64-71 | With unique ids, a delete never fails, never empties the list and keeps ids unique. An active id that named a profile still does. |
| ExportSettings.DuplicateIdsCanEmpty | components/ExportSettings.tsx:64-71 | With duplicate ids, a delete can empty the list, or can throw when the duplicates carry the active id. |
| ExportSettings.UpdateProfile | components/ExportSettings.tsx:73-75 | Profiles with the id get the update spread over them. All others are identical, and the length is kept. |
| ExportSettings.UpdateActiveThenSync | components/ExportSettings.tsx:73-75 | Editing the active profile without changing its id keeps ids unique. The merged profile stays active, and the sync effect hands its channel to the hub. |
| ExportSettings.SelectProfile | components/ExportSettings.tsx:103 | Selecting sets the active id and keeps the list. |
| ExportSettings.Find | components/ExportSettings.tsx:40 | Finds a profile exactly when one has the id, and it is the first such profile. |
| ExportSettings.FindUnique | components/ExportSettings.tsx:77 | With unique ids, the profile found is the one carrying the id. |
| ExportSettings.ActiveProfile | components/ExportSettings.tsx:77 | The profile named by the active id, else the first profile; none only for an empty list. |
| ExportSettings.SyncDefaultChannel | components/ExportSettings.tsx:38-44 | The hub's default channel becomes the active profile's channel only when the active id is found. Otherwise the hub is untouched. |
| PackBuilder.ResolveProfile | components/PackBuilder.tsx:50-57 | The first stored profile with the active id, as `find` returns it, else the built-in default (channel 0, base note 36). |
| PackBuilder.NoteOnAccepts | components/PackBuilder.tsx:75 | The note-on test holds iff the profile is on channel 0, the status is 0x90..0x9F and data2 is present and positive. |
| PackBuilder.NonZeroChannelDeaf | components/PackBuilder.tsx:75 | A profile on channels 1..15 accepts no message. |
| PackBuilder.Route | components/PackBuilder.tsx:74-82 | A message selects a pad exactly when it passes the note-on test and data1 − base + 1 lies in 1..16. That pad index is returned, with no wrapping or clamping. |
| PackBuilder.PlayPadSound | components/PackBuilder.tsx:59-71 | Only a pad with a non-empty sample path plays. The gain is velocity/127 (velocity defaults to 100) and the rate is 1. A cached sample plays without loading. An uncached sample that decodes plays that buffer and is added to the cache under its path. A failed load plays nothing and leaves the cache as it was. The cache is only extended. |
| PackBuilder.OnPadMessage | components/PackBuilder.tsx:74-84 | The flashed pad is the routed one. Playback happens at the message's velocity only for a routed pad. |
| PackBuilder.ShownPad | components/PackBuilder.tsx:148 | The grid shows the flashing pad when there is one; otherwise the clicked pad. |
| PackBuilder.FlashHighlightsPad | components/PackBuilder.tsx:148 | While a routed note flashes, exactly that pad's button is drawn as selected. |
| PackBuilder.OutboundNote | components/PackBuilder.tsx:91 | The note sent for a pad maps back to that pad under the input index formula. |
| PackBuilder.PadNote | components/PackBuilder.tsx:91 | Clicking sends note base+pad−1 with velocity 100, a note-off after 200 ms, on the profile's channel, to every output. |
| PackBuilder.HandlePadSelect | components/PackBuilder.tsx:88-92 | A click selects the pad, auditions it at the default velocity and sends its note. |
| PackBuilder.EchoRoundTrip | components/PackBuilder.tsx:77-91 | A pad's echoed note-on, routed back by the editor, selects the same pad when the profile is on channel 0. On any other channel it is ignored. |
| PackBuilder.UpdatePadMeta | components/PackBuilder.tsx:113-118 | Only the edited pad changes. It gets its assignment, or the initial one, with the updates spread over it, and all other pads are kept. |
| PackBuilder.DeletePad | components/PackBuilder.tsx:169-173 | Deleting removes exactly the selected pad's entry and keeps every other entry. |
| PackBuilder.EditLaws | components/PackBuilder.tsx:113-118 | Repeating an edit is idempotent. An empty edit of a stored pad is a no-op. Deleting after editing is just deleting. |
| PackBuilder.Samples | components/PackBuilder.tsx:95 | The request lists exactly the non-empty sample paths of the assignments. |
| PackBuilder.SamplesAppend | components/PackBuilder.tsx:95 | The list for a concatenation of keys is the list for each part, so the paths follow the key order. |
| PackBuilder.SamplesOne | components/PackBuilder.tsx:95 | One key contributes its pad's path when that path is non-empty, and nothing otherwise. |
| PackBuilder.RunSmartLayout | components/PackBuilder.tsx:94-111 | No request is made when no pad has a sample. On an answer, the whole map is replaced by initial assignments carrying the suggested paths. On failure, the map is unchanged. The busy flag ends cleared. |
| PackBuilder.EmptyLayoutClears | components/PackBuilder.tsx:99-105 | An empty answer, which the layout service gives when it cannot parse its reply, erases every assignment, sample pads included. |
| PackBuilder.LayoutPadsAssigned | components/PackBuilder.tsx:94-111 | After an answer with non-empty names, a pad is assigned exactly when the answer names it. |
| PackBuilder.CurrentPadMeta | components/PackBuilder.tsx:120 | No selection (or pad 0) shows nothing. Otherwise the stored assignment is shown, or the initial one. |
| MpcGrid.GridPads | components/MPCGrid.tsx:15 | The grid order has 16 distinct pads covering 1..16. |
| MpcGrid.Style | components/MPCGrid.tsx:23-29 | Selected beats assigned, and assigned beats empty. Each case is stated in both directions. |
| MpcGrid.Basename | components/MPCGrid.tsx:33 | `split('/').pop()` contains no `/` and is a suffix of the path. When shorter than the path, it is preceded by `/`. |
| MpcGrid.BasenameOfJoin | components/MPCGrid.tsx:33 | A file name behind any directory prefix comes back whole. |
| MpcGrid.BasenameOfPlain | components/MPCGrid.tsx:33 | A path without `/` is its own base name. |
| MpcGrid.Caption | components/MPCGrid.tsx:33 | An assigned pad shows its sample's base name, and an unassigned one its default label. |
| MpcGrid.Render | components/MPCGrid.tsx:15-35 | There are 16 buttons in flattened layout order. Each reports its own pad number on click and carries its style and caption. Its dot is lit exactly when the pad is assigned. |
| MpcGrid.OneButtonPerPad | components/MPCGrid.tsx:15-29 | Every pad has a button. At most one button is selected: the selected pad's, and none without a selection. |
| AudioAnalysis.SampleSpectrum | components/AudioAnalysis.tsx:32-35 | n bins give ⌈n/16⌉ points. Point k is (16k, bin 16k). Frequencies strictly increase, and empty input gives empty output. The result equals the recursive reference. |
| AudioAnalysis.SampleMatchesReference | components/AudioAnalysis.tsx:32-35 | The reference decimation has ⌈n/16⌉ points, and point k is bin 16k. |
| AiClassifier.Split | components/AIClassifier.tsx:14 | `split('\n')` yields at least one piece, and no piece holds a line feed. |
| AiClassifier.SplitJoin | components/AIClassifier.tsx:14 | Joining the pieces with line feeds gives the text back. |
| AiClassifier.NonBlank | components/AIClassifier.tsx:14 | The filter keeps exactly the lines with a non-space character. |
| AiClassifier.NonBlankAppend | components/AIClassifier.tsx:14 | The filter distributes over concatenation, so the kept lines stay in their original order. |
| AiClassifier.Names | components/AIClassifier.tsx:14 | No name is blank or holds a line feed. |
| AiClassifier.SplitHasNonBlank | components/AIClassifier.tsx:14 | Some line of a non-blank text is non-blank. |
| AiClassifier.NamesOfNonBlank | components/AIClassifier.tsx:12-14 | Non-blank text yields at least one name. |
| AiClassifier.RunClassification | components/AIClassifier.tsx:11-23 | Blank text makes no request and changes nothing. Otherwise the names are sent. An answer replaces the results wholesale, a failure keeps the old ones, and the busy flag ends cleared. |

## Left out

- Strings: JavaScript strings are UTF-16 code-unit sequences, while Dafny `char`s are Unicode scalar values. No surrogate handling is modelled.
- Numbers: JavaScript numbers are IEEE doubles. They are modelled as `int` (note numbers, channels, pad ids) or `real` (samples, CC values, gains). `NaN`, infinities and rounding are not modelled; neither are `parseInt` on form text and `parseInt` of the layout service's keys, which are taken as already-parsed pad numbers.
- MidiService.CcValue: a `NaN` value (which `Math.min`/`Math.max` would pass through) is not modelled.
- AudioEngine.FeaturesOfLevels: `sqrt`, `log10` and `toFixed` are left out. The model stops at the argument given to `20 * log10(...)` for the peak. For the RMS level it stops at the square of that argument: the mean of the squared samples, or 1e-6 squared when the floor applies.
- Host I/O is replaced by parameters or records:
  - Web MIDI access and its `statechange` re-enumeration;
  - `output.send`;
  - the AudioContext node graph and `resume`;
  - `fetch` and `decodeAudioData`;
  - the Blob/URL/anchor download of `exportConfig`.
- Console logging is dropped: the `console.warn`/`console.error` calls in the error paths of services/midiService.ts (lines 13 and 23), components/PackBuilder.tsx (lines 68 and 107), components/AIClassifier.tsx (line 19) and components/AudioAnalysis.tsx (line 101). Each of those paths is modelled by what it returns or leaves unchanged.
- Timers: the note-off `setTimeout` is a delay field on the send record. The 100 ms flash reset is not modelled.
- `JSON.parse` and `JSON.stringify` are an abstract partial parser and serialiser, with no round-trip law assumed.
- The external AI service (services/geminiService.ts): its answers are parameters of the smart layout and the classifier. The sonic-profile request and the canvas waveform drawing of components/AudioAnalysis.tsx are not part of this model.
- PackBuilder.Samples: the order in which `Object.values` visits the pads is a parameter (`keys`), not derived from integer-key ordering.
- React semantics are not modelled: re-rendering, batching and effect scheduling, and listener re-subscription on dependency changes. Each handler is a function from the state it reads to the state it sets.
- The in-place mutation of shared macro objects in the macro editors of components/ExportSettings.tsx is not modelled; it is aliasing glue.
- Concurrent `loadSample` calls racing on one id are not modelled. Loads are taken one after another.
- Presentational files with no rules beyond markup are not part of this model: components/Dashboard.tsx, components/LibraryAnalytics.tsx, components/Sidebar.tsx, components/MidiMonitor.tsx and App.tsx.
